/** The record types of Email.py: the `Email` dataclass and the `Priority`
    enumeration that the rest of the application imports from it. */
module Emails {
  import opened Wrappers

  /** Three-level priority; the order LOW < MEDIUM < HIGH is given by `Rank`. */
  datatype Priority = Low | Medium | High

  function Rank(p: Priority): (r: nat)
    ensures r <= 2
  {
    match p
    case Low => 0
    case Medium => 1
    case High => 2
  }

  /** The fields of a naive `datetime` that the application reads. */
  datatype DateTime = DateTime(
    year: nat, month: nat, day: nat,
    hour: nat, minute: nat, second: nat, microsecond: nat)

  /** One retrieved message. `priority` is `None` until it is classified. */
  datatype Email = Email(
    gmailId: string,
    link: string,
    timeSent: DateTime,
    sentFrom: string,
    subject: string,
    body: string,
    priority: Option<Priority>)
}
