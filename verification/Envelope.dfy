/** The G2S envelope parser, a stack machine over XML tokens. XML lexing itself is the decoder's
    business: a document is the tokens the decoder yields and whether it reached the end without
    a syntax error. */
module Envelope {
  import opened Text

  const SOAP11_NAMESPACE := "http://schemas.xmlsoap.org/soap/envelope/"
  const SOAP12_NAMESPACE := "http://www.w3.org/2003/05/soap-envelope"
  const G2S_DEFAULT_NAMESPACE := "http://www.gamingstandards.com/g2s/schemas/v1.0.3"

  datatype Attr = Attr(local: string, value: string)

  datatype Token =
    | Start(local: string, space: string, attrs: seq<Attr>)
    | CharData(text: string)
    | End
    | Other  // comments, directives and processing instructions

  datatype Document = Document(tokens: seq<Token>, wellFormed: bool)

  datatype RootKind = Unknown | G2SMessage | G2SBody | G2SAck | Legacy

  datatype Message = Message(
    rootKind: RootKind, className: string, operationName: string,
    hostID: string, egmID: string, dateTimeSent: string, sessionID: string,
    rawRoot: string, rootNamespace: string, soapNamespace: string,
    hasEnvelope: bool, hasBody: bool, fields: map<string, string>)

  datatype ParseError = Malformed | UnsupportedSoapNamespace(space: string) | OperationRequired

  const EMPTY_MESSAGE := Message(Unknown, "", "", "", "", "", "", "", "", "", false, false, map[])

  // ----- names -----

  /** One step of Unicode case folding, exact for every rune that folds to an ASCII letter. */
  function FoldChar(c: char): char {
    if 'A' <= c <= 'Z' then (c as int + 32) as char
    else if c == '\U{017F}' then 's'
    else if c == '\U{212A}' then 'k'
    else c
  }

  /** unicode.ToLower, exact for every rune whose lower case is an ASCII letter. */
  function LowerChar(c: char): char {
    if 'A' <= c <= 'Z' then (c as int + 32) as char
    else if c == '\U{0130}' then 'i'
    else if c == '\U{212A}' then 'k'
    else c
  }

  function MapChars(s: string, f: char -> char): (t: string)
    ensures |t| == |s| && forall i :: 0 <= i < |s| ==> t[i] == f(s[i])
  {
    seq(|s|, i requires 0 <= i < |s| => f(s[i]))
  }

  /** strings.EqualFold. */
  predicate EqualFold(a: string, b: string) {
    MapChars(a, FoldChar) == MapChars(b, FoldChar)
  }

  const CLASS_NAMES := {
    "communications", "cabinet", "meters", "eventhandler", "deviceconfig", "commconfig", "optionconfig", "gameplay",
    "player", "printer", "voucher", "noteacceptor", "notedispenser", "coinacceptor", "hopper", "handpay", "bonus",
    "progressive", "download", "hardware", "idreader", "gat", "wat", "central" }

  predicate IsClassName(local: string) {
    MapChars(local, LowerChar) in CLASS_NAMES
  }

  /** The element names the parser treats specially, whatever their case. */
  datatype Name = EnvelopeName | BodyName | MessageName | G2SBodyName | G2SAckName | Plain

  function NameOf(local: string): Name {
    if EqualFold(local, "Envelope") then EnvelopeName
    else if EqualFold(local, "Body") then BodyName
    else if EqualFold(local, "g2sMessage") then MessageName
    else if EqualFold(local, "g2sBody") then G2SBodyName
    else if EqualFold(local, "g2sAck") then G2SAckName
    else Plain
  }

  lemma FoldKeepsLength(a: string, b: string)
    requires EqualFold(a, b)
    ensures |a| == |b|
  {
    assert |MapChars(a, FoldChar)| == |MapChars(b, FoldChar)|;
  }

  // ----- attributes -----

  function CopyAttrs(fields: map<string, string>, attrs: seq<Attr>): map<string, string>
    decreases |attrs|
  {
    if attrs == [] then fields else CopyAttrs(fields[attrs[0].local := attrs[0].value], attrs[1..])
  }

  function AttrValue(attrs: seq<Attr>, name: string): string {
    if attrs == [] then "" else if attrs[0].local == name then attrs[0].value else AttrValue(attrs[1..], name)
  }

  // ----- the parser -----

  /** The names of the open elements, innermost last, and what is known of the message. */
  datatype State = State(stack: seq<string>, msg: Message)

  /** How an element's parent relates to the message so far. */
  datatype Place = Place(inG2SBody: bool, inClass: bool, inSoapBody: bool)

  function PlaceIn(m: Message, parent: string): Place {
    Place(NameOf(parent) == G2SBodyName, m.className != "" && EqualFold(parent, m.className),
          m.hasEnvelope && NameOf(parent) == BodyName)
  }

  function CopyIdentity(m: Message, attrs: seq<Attr>): Message {
    m.(fields := CopyAttrs(m.fields, attrs),
       hostID := OrElse(m.hostID, AttrValue(attrs, "hostId")),
       egmID := OrElse(m.egmID, AttrValue(attrs, "egmId")),
       dateTimeSent := OrElse(m.dateTimeSent, AttrValue(attrs, "dateTimeSent")))
  }

  /** What a start element adds to the message. The order of the tests matters. */
  function Element(m: Message, name: Name, place: Place, local: string, space: string, attrs: seq<Attr>)
    : Result<Message, ParseError>
  {
    match name
    case EnvelopeName =>
      if space != "" && space != SOAP11_NAMESPACE && space != SOAP12_NAMESPACE then Err(UnsupportedSoapNamespace(space))
      else Ok(m.(hasEnvelope := true, soapNamespace := space))
    case BodyName =>
      if m.hasEnvelope then Ok(m.(hasBody := true))
      else Ok(Content(m, place, false, local, space, attrs))
    case MessageName => Ok(m.(rootKind := G2SMessage, rootNamespace := space))
    case G2SBodyName => Ok(CopyIdentity(m.(rootKind := if m.rootKind == Unknown then G2SBody else m.rootKind), attrs))
    case G2SAckName => Ok(CopyIdentity(m.(rootKind := G2SAck, operationName := "g2sAck"), attrs))
    case Plain => Ok(Content(m, place, IsClassName(local), local, space, attrs))
  }

  /** An element with no special name may be the class, the operation, or neither. */
  function Content(m: Message, place: Place, isClass: bool, local: string, space: string, attrs: seq<Attr>): Message {
    var copied := m.(fields := CopyAttrs(m.fields, attrs));
    var sessionID := OrElse(m.sessionID, AttrValue(attrs, "sessionId"));
    if place.inG2SBody && m.className == "" && m.operationName == "" then
      if isClass then copied.(className := local)
      else copied.(operationName := local, sessionID := sessionID)
    else if place.inG2SBody && m.className == "" then
      copied.(className := local)
    else if place.inClass && m.operationName == "" then
      copied.(operationName := local, sessionID := sessionID)
    else if place.inSoapBody && m.operationName == "" then
      copied.(rootKind := Legacy, operationName := local, rootNamespace := space, sessionID := sessionID,
              hostID := OrElse(m.hostID, AttrValue(attrs, "hostId")),
              egmID := OrElse(m.egmID, AttrValue(attrs, "egmId")))
    else m
  }

  /** What trimmed, non-empty character data adds inside element `local`. */
  function Chars(m: Message, local: string, text: string): Message {
    var m := m.(fields := m.fields[local := text]);
    if local in {"hostId", "hostID", "host_id"} then m.(hostID := OrElse(m.hostID, text))
    else if local in {"egmId", "egmID", "egm_id"} then m.(egmID := OrElse(m.egmID, text))
    else if local in {"sessionId", "session_id"} then m.(sessionID := OrElse(m.sessionID, text))
    else if local == "dateTimeSent" then m.(dateTimeSent := OrElse(m.dateTimeSent, text))
    else m
  }

  function Top(stack: seq<string>): string {
    if stack == [] then "" else stack[|stack| - 1]
  }

  function Step(st: State, token: Token): Result<State, ParseError> {
    match token
    case Start(local, space, attrs) =>
      var m := if st.msg.rawRoot == "" then st.msg.(rawRoot := local, rootNamespace := space) else st.msg;
      (match Element(m, NameOf(local), PlaceIn(m, Top(st.stack)), local, space, attrs)
       case Ok(msg) => Ok(State(st.stack + [local], msg))
       case Err(e) => Err(e))
    case CharData(raw) =>
      var text := TrimSpace(raw);
      if text == "" || st.stack == [] then Ok(st)
      else Ok(st.(msg := Chars(st.msg, Top(st.stack), text)))
    case End =>
      Ok(if st.stack == [] then st else st.(stack := st.stack[..|st.stack| - 1]))
    case Other => Ok(st)
  }

  function Run(st: State, tokens: seq<Token>): Result<State, ParseError>
    decreases |tokens|
  {
    if tokens == [] then Ok(st)
    else match Step(st, tokens[0])
      case Ok(next) => Run(next, tokens[1..])
      case Err(e) => Err(e)
  }

  const INITIAL := State([], EMPTY_MESSAGE)

  function Parse(doc: Document): Result<Message, ParseError> {
    match Run(INITIAL, doc.tokens)
    case Err(e) => Err(e)
    case Ok(st) =>
      if !doc.wellFormed then Err(Malformed)
      else if st.msg.operationName == "" then Err(OperationRequired)
      else if st.msg.rootKind == Unknown then Ok(st.msg.(rootKind := Legacy))
      else Ok(st.msg)
  }

  /** The token loop, updating the stack and the message in place. */
  method ParseG2SEnvelope(doc: Document) returns (r: Result<Message, ParseError>)
    ensures r == Parse(doc)
  {
    var stack: seq<string>, parsed := [], EMPTY_MESSAGE;
    var i := 0;
    while i < |doc.tokens|
      invariant 0 <= i <= |doc.tokens|
      invariant Run(State(stack, parsed), doc.tokens[i..]) == Run(INITIAL, doc.tokens)
    {
      ghost var before := State(stack, parsed);
      var token := doc.tokens[i];
      assert doc.tokens[i..][0] == token && doc.tokens[i..][1..] == doc.tokens[i + 1..];
      match token {
        case Start(local, space, attrs) =>
          var parent := Top(stack);
          stack := stack + [local];
          if parsed.rawRoot == "" {
            parsed := parsed.(rawRoot := local, rootNamespace := space);
          }
          match Element(parsed, NameOf(local), PlaceIn(parsed, parent), local, space, attrs) {
            case Err(e) => return Err(e);
            case Ok(m) => parsed := m;
          }
        case CharData(raw) =>
          var text := TrimSpace(raw);
          if text != "" && stack != [] {
            parsed := Chars(parsed, Top(stack), text);
          }
        case End =>
          if stack != [] {
            stack := stack[..|stack| - 1];
          }
        case Other =>
      }
      assert Step(before, token) == Ok(State(stack, parsed));
      i := i + 1;
    }
    assert Run(State(stack, parsed), doc.tokens[i..]) == Ok(State(stack, parsed));
    if !doc.wellFormed {
      return Err(Malformed);
    }
    if parsed.operationName == "" {
      return Err(OperationRequired);
    }
    if parsed.rootKind == Unknown {
      parsed := parsed.(rootKind := Legacy);
    }
    return Ok(parsed);
  }

  // ----- what every run keeps -----

  ghost predicate MessageInv(m: Message) {
    && (m.className != "" || m.operationName != "" ==> m.rootKind != Unknown)
    && (m.hasBody ==> m.hasEnvelope)
  }

  ghost predicate StateInv(st: State) {
    && MessageInv(st.msg)
    && ((exists e <- st.stack :: NameOf(e) == G2SBodyName) ==> st.msg.rootKind != Unknown)
  }

  ghost predicate WriteOnce(before: string, after: string) {
    before != "" ==> after == before
  }

  /** Identity fields, once known, stay as they are. */
  ghost predicate KeepsIdentity(a: Message, b: Message) {
    && WriteOnce(a.hostID, b.hostID) && WriteOnce(a.egmID, b.egmID)
    && WriteOnce(a.sessionID, b.sessionID) && WriteOnce(a.dateTimeSent, b.dateTimeSent)
  }

  /** An operation, once set, changes only to g2sAck; a class, a root and the flags stay. */
  ghost predicate KeepsOperation(a: Message, b: Message) {
    && (a.operationName != "" ==> b.operationName == a.operationName || b.operationName == "g2sAck")
    && WriteOnce(a.className, b.className) && WriteOnce(a.rawRoot, b.rawRoot)
    && (a.rootKind != Unknown ==> b.rootKind != Unknown)
    && (a.hasEnvelope ==> b.hasEnvelope) && (a.hasBody ==> b.hasBody)
  }

  lemma ElementKeepsInv(m: Message, name: Name, place: Place, local: string, space: string, attrs: seq<Attr>)
    requires MessageInv(m) && (place.inG2SBody ==> m.rootKind != Unknown) && (place.inClass ==> m.className != "")
    requires Element(m, name, place, local, space, attrs).Ok?
    ensures MessageInv(Element(m, name, place, local, space, attrs).value)
    ensures name == G2SBodyName ==> Element(m, name, place, local, space, attrs).value.rootKind != Unknown
  {
  }

  lemma ContentKeeps(m: Message, place: Place, isClass: bool, local: string, space: string, attrs: seq<Attr>)
    ensures KeepsIdentity(m, Content(m, place, isClass, local, space, attrs))
    ensures KeepsOperation(m, Content(m, place, isClass, local, space, attrs))
  {
  }

  lemma CharsKeep(m: Message, local: string, text: string)
    ensures KeepsIdentity(m, Chars(m, local, text))
    ensures KeepsOperation(m, Chars(m, local, text))
    ensures MessageInv(m) ==> MessageInv(Chars(m, local, text))
    ensures Chars(m, local, text).rootKind == m.rootKind
  {
  }

  lemma ElementKeeps(m: Message, name: Name, place: Place, local: string, space: string, attrs: seq<Attr>)
    requires Element(m, name, place, local, space, attrs).Ok?
    ensures KeepsIdentity(m, Element(m, name, place, local, space, attrs).value)
    ensures KeepsOperation(m, Element(m, name, place, local, space, attrs).value)
  {
    match name
    case BodyName => ContentKeeps(m, place, false, local, space, attrs);
    case Plain => ContentKeeps(m, place, IsClassName(local), local, space, attrs);
    case _ =>
  }

  lemma StartKeeps(st: State, local: string, space: string, attrs: seq<Attr>)
    requires StateInv(st) && Step(st, Start(local, space, attrs)).Ok?
    ensures StateInv(Step(st, Start(local, space, attrs)).value)
    ensures KeepsIdentity(st.msg, Step(st, Start(local, space, attrs)).value.msg)
    ensures KeepsOperation(st.msg, Step(st, Start(local, space, attrs)).value.msg)
  {
    var next := Step(st, Start(local, space, attrs)).value;
    var m := if st.msg.rawRoot == "" then st.msg.(rawRoot := local, rootNamespace := space) else st.msg;
    NoName();
    assert st.stack != [] ==> Top(st.stack) in st.stack;
    ElementKeepsInv(m, NameOf(local), PlaceIn(m, Top(st.stack)), local, space, attrs);
    ElementKeeps(m, NameOf(local), PlaceIn(m, Top(st.stack)), local, space, attrs);
    assert forall e <- next.stack :: e in st.stack || e == local;
  }

  lemma StepKeeps(st: State, token: Token)
    requires StateInv(st) && Step(st, token).Ok?
    ensures StateInv(Step(st, token).value)
    ensures KeepsIdentity(st.msg, Step(st, token).value.msg)
    ensures KeepsOperation(st.msg, Step(st, token).value.msg)
  {
    match token
    case Start(local, space, attrs) => StartKeeps(st, local, space, attrs);
    case CharData(raw) =>
      if st.stack != [] { CharsKeep(st.msg, Top(st.stack), TrimSpace(raw)); }
    case End =>
      assert forall e <- Step(st, token).value.stack :: e in st.stack;
    case Other =>
  }

  lemma NoName()
    ensures NameOf("") == Plain
  {
    forall s | |s| > 0 ensures !EqualFold("", s) {
      if EqualFold("", s) { FoldKeepsLength("", s); }
    }
  }

  /** Over any token stream, from any reachable point: roots stay known, an operation once set
      changes only to g2sAck, identity fields are write-once, a body needs an envelope. */
  lemma {:induction false} RunKeeps(st: State, tokens: seq<Token>)
    requires StateInv(st) && Run(st, tokens).Ok?
    ensures StateInv(Run(st, tokens).value)
    ensures KeepsIdentity(st.msg, Run(st, tokens).value.msg)
    ensures KeepsOperation(st.msg, Run(st, tokens).value.msg)
    decreases |tokens|
  {
    if tokens != [] {
      StepKeeps(st, tokens[0]);
      RunKeeps(Step(st, tokens[0]).value, tokens[1..]);
    }
  }

  /** The closing "legacy" default never fires, so a parsed message is exactly the run's. */
  lemma FallbackNeverFires(doc: Document)
    ensures Parse(doc).Ok? <==>
            doc.wellFormed && Run(INITIAL, doc.tokens).Ok? && Run(INITIAL, doc.tokens).value.msg.operationName != ""
    ensures Parse(doc).Ok? ==> Parse(doc).value == Run(INITIAL, doc.tokens).value.msg && Parse(doc).value.rootKind != Unknown
  {
    if Run(INITIAL, doc.tokens).Ok? {
      RunKeeps(INITIAL, doc.tokens);
    }
  }
}
