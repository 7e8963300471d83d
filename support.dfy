/** The persona resolver: a session id picks one entry of the persona catalogue by the
    character code of its first character. The catalogue itself is data held elsewhere,
    so it is a parameter here. */
module Support {
  import opened Wrappers
  import opened Js

  /** One catalogue entry: the name and avatar image shown for the assistant. */
  datatype Persona = Persona(name: string, img: string)

  /** `toLowerCase` on one character, for the ASCII letters. */
  function LowerAscii(c: char): char
  {
    if 'A' <= c <= 'Z' then (c as int + 32) as char else c
  }

  function ToLowerCase(s: string): (r: string)
    ensures |r| == |s|
    ensures forall i :: 0 <= i < |s| ==> r[i] == LowerAscii(s[i])
  {
    if s == [] then [] else [LowerAscii(s[0])] + ToLowerCase(s[1..])
  }

  /** The UTF-16 code unit JavaScript's `charCodeAt` reports for the first unit of `c`: the
      code point itself, or the leading surrogate of a character above U+FFFF. */
  function Utf16LeadUnit(c: char): (u: int)
    ensures 0 <= u < 0x1_0000
    ensures c as int < 0x1_0000 ==> u == c as int
    ensures c as int >= 0x1_0000 ==> 0xD800 <= u < 0xDC00
  {
    if c as int < 0x1_0000 then c as int else 0xD800 + (c as int - 0x1_0000) / 0x400
  }

  /** `s.charAt(0).charCodeAt(0)`: no number (NaN) for the empty string. */
  function FirstCharCode(s: string): Option<int>
  {
    if s == [] then None else Some(Utf16LeadUnit(s[0]))
  }

  /** The code of the session id's first character after lower-casing. */
  function LoweredCode(sessionId: string): int
    requires sessionId != []
  {
    Utf16LeadUnit(LowerAscii(sessionId[0]))
  }

  /** `(firstLetter.charCodeAt(0) - 97) % supports.length`, or NaN (None) when there is no
      first character or the catalogue is empty (`x % 0` is NaN). */
  function PersonaIndex(sessionId: string, count: nat): (r: Option<int>)
    ensures r.Some? <==> sessionId != [] && count > 0
    ensures r.Some? ==> -(count as int) < r.value < count && r.value == TruncRem(LoweredCode(sessionId) - 97, count)
  {
    match FirstCharCode(ToLowerCase(sessionId))
    case None => None
    case Some(code) => if count == 0 then None else Some(TruncRem(code - 97, count))
  }

  /** `getSupportBySessionId`: `supports[index]`, which is `undefined` (None) for NaN and for
      an index outside the catalogue. */
  function GetSupportBySessionId(sessionId: string, supports: seq<Persona>): (r: Option<Persona>)
    ensures r.Some? <==> PersonaIndex(sessionId, |supports|).Some? && PersonaIndex(sessionId, |supports|).value >= 0
    ensures r.Some? ==> r.value == supports[PersonaIndex(sessionId, |supports|).value]
  {
    match PersonaIndex(sessionId, |supports|)
    case None => None
    case Some(i) => if 0 <= i < |supports| then Some(supports[i]) else None
  }

  lemma FirstCodeIsLoweredFirstChar(sessionId: string)
    requires sessionId != []
    ensures FirstCharCode(ToLowerCase(sessionId)) == Some(LoweredCode(sessionId))
  {
    assert ToLowerCase(sessionId)[0] == LowerAscii(sessionId[0]);
  }

  /** Only the first character, after lower-casing, decides the persona. */
  lemma DependsOnlyOnFirstCharacter(a: string, b: string, supports: seq<Persona>)
    requires a != [] && b != [] && LowerAscii(a[0]) == LowerAscii(b[0])
    ensures GetSupportBySessionId(a, supports) == GetSupportBySessionId(b, supports)
  {
    FirstCodeIsLoweredFirstChar(a);
    FirstCodeIsLoweredFirstChar(b);
  }

  /** Ids whose first letters differ only in ASCII case get the same persona. */
  lemma IgnoresCaseOfFirstLetter(a: string, b: string, supports: seq<Persona>)
    requires a != [] && b != []
    requires 'A' <= a[0] <= 'Z' && b[0] as int == a[0] as int + 32
    ensures GetSupportBySessionId(a, supports) == GetSupportBySessionId(b, supports)
  {
    DependsOnlyOnFirstCharacter(a, b, supports);
  }

  /** A first letter `a`..`z` (in either case) gives an index inside a non-empty catalogue,
      so the lookup is defined. */
  lemma LetterIndexInRange(sessionId: string, supports: seq<Persona>)
    requires supports != [] && sessionId != []
    requires 'a' <= LowerAscii(sessionId[0]) <= 'z'
    ensures var i := (LoweredCode(sessionId) - 97) % |supports|;
      0 <= i < |supports| &&
      PersonaIndex(sessionId, |supports|) == Some(i) &&
      GetSupportBySessionId(sessionId, supports) == Some(supports[i])
  {
    FirstCodeIsLoweredFirstChar(sessionId);
  }

  /** `a` selects the first entry. */
  lemma LetterAIsFirstEntry(sessionId: string, supports: seq<Persona>)
    requires supports != [] && sessionId != [] && sessionId[0] in {'a', 'A'}
    ensures GetSupportBySessionId(sessionId, supports) == Some(supports[0])
  {
    LetterIndexInRange(sessionId, supports);
  }

  /** Letters whose codes are a catalogue length apart select the same entry. */
  lemma LettersCatalogueLengthApart(a: string, b: string, supports: seq<Persona>)
    requires supports != [] && a != [] && b != []
    requires 'a' <= LowerAscii(a[0]) <= 'z' && 'a' <= LowerAscii(b[0]) <= 'z'
    requires LoweredCode(b) == LoweredCode(a) + |supports|
    ensures GetSupportBySessionId(a, supports) == GetSupportBySessionId(b, supports)
  {
    LetterIndexInRange(a, supports);
    LetterIndexInRange(b, supports);
    ModShift(LoweredCode(a) - 97, |supports|);
  }

  /** The remainder truncates: a first character below `a` whose distance to `a` is not a
      multiple of the catalogue length gives a negative index, not a wrapped one. */
  lemma NegativeIndexBelowA(sessionId: string, supports: seq<Persona>)
    requires supports != [] && sessionId != []
    requires LoweredCode(sessionId) < 97 && (LoweredCode(sessionId) - 97) % |supports| != 0
    ensures PersonaIndex(sessionId, |supports|).Some?
    ensures PersonaIndex(sessionId, |supports|).value < 0
  {
    FirstCodeIsLoweredFirstChar(sessionId);
    TruncRemOfNegative(LoweredCode(sessionId) - 97, |supports|);
  }

  /** The lookup is undefined exactly for the empty id, the empty catalogue, and a first
      character below `a` whose distance to `a` is not a multiple of the catalogue length. */
  lemma UndefinedExactly(sessionId: string, supports: seq<Persona>)
    ensures GetSupportBySessionId(sessionId, supports).None? <==>
      sessionId == [] || supports == [] ||
      (LoweredCode(sessionId) < 97 && (LoweredCode(sessionId) - 97) % |supports| != 0)
  {
    if sessionId != [] && supports != [] {
      FirstCodeIsLoweredFirstChar(sessionId);
      var x := LoweredCode(sessionId) - 97;
      if x < 0 {
        TruncRemOfNegative(x, |supports|);
      }
    }
  }

  // ---------------------------------------------------------------------------
  // A lookup whose remainder is never negative.

  /** The index taken with a remainder that is never negative, so it always wraps into the
      catalogue. */
  function GetSupportWrapped(sessionId: string, supports: seq<Persona>): Option<Persona>
  {
    if sessionId == [] || supports == [] then None
    else Some(supports[(LoweredCode(sessionId) - 97) % |supports|])
  }

  /** The wrapping lookup is defined for every non-empty id and catalogue, and agrees with
      the lookup as written wherever that one is defined. */
  lemma WrappedExtendsAsWritten(sessionId: string, supports: seq<Persona>)
    ensures GetSupportWrapped(sessionId, supports).Some? <==> sessionId != [] && supports != []
    ensures GetSupportBySessionId(sessionId, supports).Some? ==>
      GetSupportBySessionId(sessionId, supports) == GetSupportWrapped(sessionId, supports)
  {
    if sessionId != [] && supports != [] {
      FirstCodeIsLoweredFirstChar(sessionId);
      var x := LoweredCode(sessionId) - 97;
      if x < 0 {
        TruncRemOfNegative(x, |supports|);
      }
    }
  }

  /** The session id "0" against a three-entry catalogue: (48 - 97) % 3 is -1 in
      JavaScript, so there is no persona, while the wrapping lookup picks the last entry. */
  lemma DigitIdHasNoPersona(p: Persona, q: Persona, r: Persona)
    ensures GetSupportBySessionId("0", [p, q, r]) == None
    ensures GetSupportWrapped("0", [p, q, r]) == Some(r)
  {
    FirstCodeIsLoweredFirstChar("0");
    assert TruncRem(-49, 3) == -1;
  }
}
