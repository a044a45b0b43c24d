/** The three message kinds of the chat-model library that the pipeline
    builds its conversation from. */
module Messages {

  datatype ChatMsg = Human(content: string) | Ai(content: string) | System(content: string)
}
