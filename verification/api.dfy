/** The message that scrapper, agent and bot exchange. */
module Api {
  import opened Domain

  /** api.LinkUpdate. Text is a string of characters where the words matter and a string of bytes where
      the encoding does. */
  datatype LinkUpdate<Text> = LinkUpdate(
    id: int, url: Text, tgChatIds: seq<int>, kind: Text, title: Text, username: Text, createdAt: Time,
    preview: Text, description: Text, priority: Text)
}
