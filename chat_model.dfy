/** The transcript entry shared by the chat page and the transcript the GET route returns:
    `{ type: 'user' | 'assistant', text }`. */
module ChatModel {

  datatype Speaker = User | Assistant

  datatype Chat = Chat(kind: Speaker, text: string)
}
