/** The records the application passes around (the interfaces of `src/types/index.ts`). */
module Domain {
  import opened Wrappers

  /** A point in time in milliseconds; the clock itself is an input of every operation that reads it. */
  type Time = int

  /** The stored delivery status of a message: exactly one of five values. */
  datatype Status = Pending | Sent | Delivered | Failed | Read

  /** The two message channels, `'sms' | 'rcs'`. */
  datatype Channel = Sms | Rcs

  /** An outbound message as stored; `twilioSid` is the provider's identifier once the send was accepted. */
  datatype Message = Message(
    id: string,
    recipientId: string,
    templateId: Option<string>,
    kind: Channel,
    content: string,
    status: Status,
    twilioSid: Option<string>,
    scheduledAt: Option<Time>,
    sentAt: Option<Time>,
    deliveredAt: Option<Time>,
    readAt: Option<Time>,
    errorMessage: Option<string>,
    createdAt: Time,
    updatedAt: Time)

  /** A contact as held by the contacts page and edited by the contact dialog. */
  datatype Contact = Contact(
    id: string,
    firstName: string,
    lastName: string,
    phoneNumber: string,
    email: Option<string>,
    tags: seq<string>,
    customFields: map<string, string>,
    createdAt: Time,
    updatedAt: Time)

  /** A message template as held by the templates page and edited by the template dialog. */
  datatype Template = Template(
    id: string,
    name: string,
    category: string,
    kind: Channel,
    content: string,
    variables: seq<string>,
    description: string,
    isActive: bool,
    usageCount: nat,
    createdAt: Time,
    updatedAt: Time)
}
