/** EmailRetriever.py: choosing the body of a message from its MIME payload
    tree, and the small pure helpers around the Gmail calls. */
module EmailRetriever {
  import opened Wrappers

  // ---------------------------------------------------------------------
  // __retrieve_body
  // ---------------------------------------------------------------------

  /** The `body` object of a payload; `data` is absent for container parts. */
  datatype Body = Body(data: Option<string>)

  /** One node of a Gmail message payload. `body` is `None` when the key is
      missing; `parts` distinguishes a missing (or null) `parts` key from a
      present, possibly empty, list. */
  datatype Payload = Payload(mimeType: Option<string>, body: Option<Body>, parts: Parts)

  datatype Parts = NoParts | Parts(items: seq<Payload>)

  datatype RetrieveError =
    | MissingBody        // `payload.get('body')` is None: AttributeError
    | UnsupportedParts   // no part of a supported type: `assert False`

  const TextPlain: string := "text/plain"
  const TextHtml: string := "text/html"
  const MultipartAlternative: string := "multipart/alternative"
  const MultipartRelated: string := "multipart/related"

  /** `q` is `p` or a node somewhere below it. */
  ghost predicate InTree(q: Payload, p: Payload)
    decreases p
  {
    q == p || (p.parts.Parts? && exists i :: 0 <= i < |p.parts.items| && InTree(q, p.parts.items[i]))
  }

  /** The `mimeType` of each part, in order. */
  function MimeTypes(parts: seq<Payload>): (types: seq<Option<string>>)
    ensures |types| == |parts|
    ensures forall i :: 0 <= i < |parts| ==> types[i] == parts[i].mimeType
  {
    seq(|parts|, i requires 0 <= i < |parts| => parts[i].mimeType)
  }

  /** Python's `list.index`, with `None` where it would raise ValueError. */
  function IndexOf<T(==)>(xs: seq<T>, x: T): (r: Option<nat>)
    ensures r.Some? ==> r.value < |xs| && xs[r.value] == x
                        && forall j :: 0 <= j < r.value ==> xs[j] != x
    ensures r.None? <==> x !in xs
  {
    if |xs| == 0 then None
    else if xs[0] == x then Some(0)
    else
      match IndexOf(xs[1..], x)
      case None => None
      case Some(i) => Some(i + 1)
  }

  /** `parts[i]` is the first part whose type is `t`. */
  predicate FirstOfType(parts: seq<Payload>, i: int, t: string) {
    && 0 <= i < |parts|
    && parts[i].mimeType == Some(t)
    && forall j :: 0 <= j < i ==> parts[j].mimeType != Some(t)
  }

  predicate HasType(parts: seq<Payload>, t: string) {
    exists i :: 0 <= i < |parts| && parts[i].mimeType == Some(t)
  }

  /** What `__retrieve_body` does with one `parts` list: take a part's own
      body, descend into a part, or give up. */
  datatype Choice = Take(index: nat) | Descend(index: nat) | Unsupported

  /** The preference order at one level: the first text/plain part, else the
      first text/html part, else descend into the first multipart/alternative
      part, else into the first multipart/related part; otherwise give up. */
  function ChooseAtLevel(parts: seq<Payload>): (c: Choice)
    ensures c.Take? ==> c.index < |parts| && parts[c.index].mimeType in {Some(TextPlain), Some(TextHtml)}
    ensures c.Descend? ==> c.index < |parts|
                           && parts[c.index].mimeType in {Some(MultipartAlternative), Some(MultipartRelated)}
    ensures forall i :: FirstOfType(parts, i, TextPlain) ==> c == Take(i)
    ensures forall i :: !HasType(parts, TextPlain) && FirstOfType(parts, i, TextHtml) ==> c == Take(i)
    ensures forall i ::
              (!HasType(parts, TextPlain) && !HasType(parts, TextHtml)
               && FirstOfType(parts, i, MultipartAlternative)) ==> c == Descend(i)
    ensures forall i ::
              (!HasType(parts, TextPlain) && !HasType(parts, TextHtml) && !HasType(parts, MultipartAlternative)
               && FirstOfType(parts, i, MultipartRelated)) ==> c == Descend(i)
    ensures c == Unsupported <==>
              !HasType(parts, TextPlain) && !HasType(parts, TextHtml)
              && !HasType(parts, MultipartAlternative) && !HasType(parts, MultipartRelated)
  {
    var types := MimeTypes(parts);
    match IndexOf(types, Some(TextPlain))
    case Some(i) => Take(i)
    case None =>
      match IndexOf(types, Some(TextHtml))
      case Some(i) => Take(i)
      case None =>
        match IndexOf(types, Some(MultipartAlternative))
        case Some(i) => Descend(i)
        case None =>
          match IndexOf(types, Some(MultipartRelated))
          case Some(i) => Descend(i)
          case None => Unsupported
  }

  /** The node whose `body.data` `__retrieve_body` returns: the payload itself
      when it has no parts, otherwise what the level choice designates,
      descending as often as it says. */
  function SelectPart(p: Payload): (r: Result<Payload, RetrieveError>)
    decreases p
    ensures r.Success? ==> InTree(r.value, p)
    ensures r.Success? ==> r.value.parts.NoParts? || r.value.mimeType in {Some(TextPlain), Some(TextHtml)}
    ensures r.Failure? <==> r == Failure(UnsupportedParts)
    ensures p.parts.NoParts? ==> r == Success(p)
    ensures p.parts.Parts? && ChooseAtLevel(p.parts.items).Take? ==>
              r == Success(p.parts.items[ChooseAtLevel(p.parts.items).index])
    ensures p.parts.Parts? && ChooseAtLevel(p.parts.items).Descend? ==>
              var child := p.parts.items[ChooseAtLevel(p.parts.items).index];
              r == SelectPart(child) && (r.Success? ==> InTree(r.value, child))
    ensures p.parts.Parts? && ChooseAtLevel(p.parts.items) == Unsupported ==>
              r == Failure(UnsupportedParts)
  {
    match p.parts
    case NoParts => Success(p)
    case Parts(parts) =>
      match ChooseAtLevel(parts)
      case Take(i) => Success(parts[i])
      case Descend(i) => SelectPart(parts[i])
      case Unsupported => Failure(UnsupportedParts)
  }

  /** `payload.get('body').get('data')`. */
  function BodyData(p: Payload): (r: Result<Option<string>, RetrieveError>)
    ensures r.Success? <==> p.body.Some?
    ensures r.Success? ==> r.value == p.body.value.data
  {
    match p.body
    case None => Failure(MissingBody)
    case Some(body) => Success(body.data)
  }

  /** `EmailRetriever.__retrieve_body`: the still-encoded body data. */
  function RetrieveBody(p: Payload): (r: Result<Option<string>, RetrieveError>)
    ensures r == Failure(UnsupportedParts) <==> SelectPart(p) == Failure(UnsupportedParts)
    ensures r == Failure(MissingBody) <==> SelectPart(p).Success? && SelectPart(p).value.body.None?
    ensures SelectPart(p).Success? ==> r == BodyData(SelectPart(p).value)
    ensures r.Success? ==> exists q :: InTree(q, p) && q.body.Some? && r.value == q.body.value.data
    ensures p.parts.NoParts? ==> r == BodyData(p)
    ensures forall i :: p.parts.Parts? && FirstOfType(p.parts.items, i, TextPlain)
                        ==> r == BodyData(p.parts.items[i])
  {
    var q :- SelectPart(p);
    BodyData(q)
  }

  /** A payload with a `parts` list never falls back to its own body, even
      when that list is empty. */
  lemma EmptyPartsFails(mimeType: Option<string>, body: Option<Body>)
    ensures RetrieveBody(Payload(mimeType, body, Parts([]))) == Failure(UnsupportedParts)
  {
  }

  // ---------------------------------------------------------------------
  // __make_url_from_message_id
  // ---------------------------------------------------------------------

  const GmailUserId: string := "0"
  const UrlPrefix: string := "https://mail.google.com/mail/u/" + GmailUserId + "/#all/"

  /** The web link of a message. */
  function MakeUrlFromMessageId(messageId: string): (url: string)
    ensures |url| == |UrlPrefix| + |messageId|
    ensures url[..|UrlPrefix|] == "https://mail.google.com/mail/u/0/#all/"
    ensures url[|UrlPrefix|..] == messageId
  {
    "https://mail.google.com/mail/u/" + GmailUserId + "/#all/" + messageId
  }

  /** Recovers the message id from a link; the partner of `MakeUrlFromMessageId`. */
  function MessageIdFromUrl(url: string): Option<string> {
    if |UrlPrefix| <= |url| && url[..|UrlPrefix|] == UrlPrefix then Some(url[|UrlPrefix|..]) else None
  }

  lemma UrlRoundTrip(messageId: string)
    ensures MessageIdFromUrl(MakeUrlFromMessageId(messageId)) == Some(messageId)
  {
  }

  /** Distinct message ids give distinct links. */
  lemma UrlInjective(a: string, b: string)
    ensures MakeUrlFromMessageId(a) == MakeUrlFromMessageId(b) <==> a == b
  {
  }

  // ---------------------------------------------------------------------
  // retrieve_username: str.removesuffix('@gmail.com')
  // ---------------------------------------------------------------------

  const GmailSuffix: string := "@gmail.com"

  predicate EndsWith(s: string, suffix: string) {
    |suffix| <= |s| && s[|s| - |suffix|..] == suffix
  }

  /** Python's `str.removesuffix`: an empty suffix removes nothing. */
  function RemoveSuffix(s: string, suffix: string): (r: string)
    ensures suffix != [] && EndsWith(s, suffix) ==> r + suffix == s
    ensures !(suffix != [] && EndsWith(s, suffix)) ==> r == s
  {
    if |suffix| > 0 && EndsWith(s, suffix) then
      assert s == s[..|s| - |suffix|] + s[|s| - |suffix|..];
      s[..|s| - |suffix|]
    else s
  }

  /** `retrieve_username`'s final step: an address loses one trailing
      `@gmail.com`, and any other address is kept whole. */
  function Username(emailAddress: string): (u: string)
    ensures EndsWith(emailAddress, GmailSuffix) ==> u + GmailSuffix == emailAddress
    ensures !EndsWith(emailAddress, GmailSuffix) ==> u == emailAddress
  {
    RemoveSuffix(emailAddress, GmailSuffix)
  }

  /** The username of `u@gmail.com` is `u`, for every `u`. */
  lemma UsernameOfGmailAddress(u: string)
    ensures Username(u + GmailSuffix) == u
  {
  }

  /** Only one trailing `@gmail.com` is removed. */
  lemma UsernameStripsOnce(u: string)
    ensures Username(u + GmailSuffix + GmailSuffix) == u + GmailSuffix
  {
  }

  /** Any other address is its own username. */
  lemma UsernameOfOtherAddress(a: string)
    requires !EndsWith(a, GmailSuffix)
    ensures Username(a) == a
  {
  }

  // ---------------------------------------------------------------------
  // internalDate (milliseconds) to whole seconds: int(timestamp) // 1000
  // ---------------------------------------------------------------------

  /** Python's floor division by 1000 (rounds toward minus infinity). */
  function SecondsFromMillis(ms: int): (s: int)
    ensures s * 1000 <= ms < s * 1000 + 1000
  {
    ms / 1000
  }

  /** The floor is the only integer with that property. */
  lemma SecondsFromMillisUnique(s: int, k: int)
    requires 0 <= k < 1000
    ensures SecondsFromMillis(s * 1000 + k) == s
  {
  }
}
