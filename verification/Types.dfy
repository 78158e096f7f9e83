/** The Slack objects the provider reads and writes. */
module Types {
  datatype Channel = Channel(
    id: string, name: string, isPrivate: bool, isArchived: bool, topic: string, purpose: string,
    numMembers: int, created: int)

  datatype Bookmark = Bookmark(
    id: string, channelID: string, title: string, kind: string, link: string, dateCreated: int)

  datatype Pin = Pin(channel: string, ts: string, created: int)

  datatype UserGroup = UserGroup(
    id: string, name: string, handle: string, description: string, isEnabled: bool, createdBy: string,
    dateCreate: int)
}
