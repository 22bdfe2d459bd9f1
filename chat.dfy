/** The chat message shape shared by the conversation screens. */
module Chat {
  datatype Role = User | Assistant

  datatype Message = Message(role: Role, content: string)

  predicate IsUser(m: Message) {
    m.role == User
  }
}
