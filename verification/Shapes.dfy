/** The shapes a G2S message comes in, and what the parser makes of each, whatever their attributes
    and spelling: with or without a SOAP envelope, with or without a class, acknowledgements. */
module Shapes {
  import opened Text
  import opened Envelope
  import opened Renderer

  /** The classes of the protocol, lower-cased. */
  predicate ListedClass(name: string) {
    var l := MapChars(name, LowerChar);
    || l == "communications" || l == "cabinet" || l == "meters" || l == "eventhandler" || l == "deviceconfig"
    || l == "commconfig" || l == "optionconfig" || l == "gameplay" || l == "player" || l == "printer" || l == "voucher"
    || l == "noteacceptor" || l == "notedispenser" || l == "coinacceptor" || l == "hopper" || l == "handpay"
    || l == "bonus" || l == "progressive" || l == "download" || l == "hardware" || l == "idreader" || l == "gat"
    || l == "wat" || l == "central"
  }

  /** A name that is none of the structural ones, in any case. */
  predicate PlainElement(name: string) {
    && name != "" && !EqualFold(name, "Envelope") && !EqualFold(name, "Body") && !EqualFold(name, "g2sMessage")
    && !EqualFold(name, "g2sBody") && !EqualFold(name, "g2sAck")
  }

  lemma StructuralNames(name: string)
    ensures PlainElement(name) ==> NameOf(name) == Plain
    ensures EqualFold(name, "Envelope") ==> NameOf(name) == EnvelopeName
    ensures EqualFold(name, "Body") ==> NameOf(name) == BodyName
    ensures EqualFold(name, "g2sMessage") ==> NameOf(name) == MessageName
    ensures EqualFold(name, "g2sBody") ==> NameOf(name) == G2SBodyName
    ensures EqualFold(name, "g2sAck") ==> NameOf(name) == G2SAckName
  {
    forall b: string | |name| != |b| ensures !EqualFold(name, b) {
      if EqualFold(name, b) { FoldKeepsLength(name, b); }
    }
  }

  /** ASCII capitals are lowered, and every other ASCII character stays. */
  lemma LowersCapitals(c: char)
    requires c <= '~'
    ensures LowerChar(c) == if 'A' <= c <= 'Z' then (c as int + 32) as char else c
  {
  }

  /** For ASCII names, element names are compared by their lower-cased spelling. */
  lemma FoldIsLower(a: string, b: string)
    requires (forall c <- a :: c <= '~') && forall c <- b :: c <= '~'
    ensures EqualFold(a, b) <==> MapChars(a, LowerChar) == MapChars(b, LowerChar)
  {
    FoldsLikeLower(a);
    FoldsLikeLower(b);
  }

  lemma FoldsLikeLower(s: string)
    requires forall c <- s :: c <= '~'
    ensures MapChars(s, FoldChar) == MapChars(s, LowerChar)
  {
    assert forall i :: 0 <= i < |s| ==> s[i] in s && FoldChar(s[i]) == LowerChar(s[i]);
  }

  /** An element: its name, namespace and attributes. */
  datatype Tag = Tag(local: string, space: string, attrs: seq<Attr>) {
    function Token(): Token { Start(local, space, attrs) }
  }

  /** The identity a body or an acknowledgement carries in its attributes; what is known already stays. */
  function Identified(m: Message, attrs: seq<Attr>): Message {
    m.(hostID := if m.hostID != "" then m.hostID else AttrValue(attrs, "hostId"),
       egmID := if m.egmID != "" then m.egmID else AttrValue(attrs, "egmId"),
       dateTimeSent := if m.dateTimeSent != "" then m.dateTimeSent else AttrValue(attrs, "dateTimeSent"),
       fields := CopyAttrs(m.fields, attrs))
  }

  function Rooted(m: Message, tag: Tag): Message {
    if m.rawRoot == "" then m.(rawRoot := tag.local, rootNamespace := tag.space) else m
  }

  /** A class and an operation inside a g2sBody: the class if it is a listed one, else itself the operation. */
  function Classed(m: Message, class_: Tag, op: Tag): Message {
    if ListedClass(class_.local) then
      m.(className := class_.local, operationName := op.local,
         sessionID := if m.sessionID != "" then m.sessionID else AttrValue(op.attrs, "sessionId"),
         fields := CopyAttrs(CopyAttrs(m.fields, class_.attrs), op.attrs))
    else
      m.(operationName := class_.local,
         sessionID := if m.sessionID != "" then m.sessionID else AttrValue(class_.attrs, "sessionId"),
         fields := CopyAttrs(m.fields, class_.attrs))
  }

  /** Nothing but a root and an envelope is known. */
  predicate Unread(m: Message) {
    m.className == "" && m.operationName == "" && (m.rawRoot == "" ==> !m.hasEnvelope)
  }

  predicate IsMessage(tag: Tag) { EqualFold(tag.local, "g2sMessage") }

  predicate IsBody(tag: Tag) { EqualFold(tag.local, "g2sBody") }

  predicate IsAck(tag: Tag) { EqualFold(tag.local, "g2sAck") }

  predicate IsEnvelope(tag: Tag) { EqualFold(tag.local, "Envelope") }

  predicate IsSoapBody(tag: Tag) { EqualFold(tag.local, "Body") }

  // ----- one element at a time -----

  lemma MessageStep(st: State, tag: Tag)
    requires IsMessage(tag)
    ensures Step(st, tag.Token()) ==
            Ok(State(st.stack + [tag.local], Rooted(st.msg, tag).(rootKind := G2SMessage, rootNamespace := tag.space)))
  {
    StructuralNames(tag.local);
    hide NameOf, PlaceIn, Content;
  }

  lemma BodyStep(st: State, tag: Tag)
    requires IsBody(tag)
    ensures var m := Rooted(st.msg, tag);
            Step(st, tag.Token()) ==
            Ok(State(st.stack + [tag.local], Identified(m.(rootKind := if m.rootKind == Unknown then G2SBody else m.rootKind), tag.attrs)))
  {
    StructuralNames(tag.local);
    hide NameOf, PlaceIn, Content, CopyAttrs, AttrValue;
  }

  /** An acknowledgement takes over whatever it is found in. */
  lemma AckStep(st: State, tag: Tag)
    requires IsAck(tag)
    ensures Step(st, tag.Token()) ==
            Ok(State(st.stack + [tag.local],
                     Identified(Rooted(st.msg, tag).(rootKind := G2SAck, operationName := "g2sAck"), tag.attrs)))
  {
    StructuralNames(tag.local);
    hide NameOf, PlaceIn, Content, CopyAttrs, AttrValue;
  }

  /** The first element inside a g2sBody: a class if listed, else the operation. */
  lemma ClassStep(st: State, tag: Tag)
    requires PlainElement(tag.local) && st.stack != [] && EqualFold(Top(st.stack), "g2sBody")
    requires Unread(st.msg) && st.msg.rawRoot != ""
    ensures Step(st, tag.Token()) ==
            Ok(State(st.stack + [tag.local],
                     if ListedClass(tag.local) then
                       st.msg.(className := tag.local, fields := CopyAttrs(st.msg.fields, tag.attrs))
                     else
                       st.msg.(operationName := tag.local, fields := CopyAttrs(st.msg.fields, tag.attrs),
                               sessionID := if st.msg.sessionID != "" then st.msg.sessionID
                                            else AttrValue(tag.attrs, "sessionId"))))
  {
    StructuralNames(tag.local);
    StructuralNames(Top(st.stack));
    ListedExactly(tag.local);
    hide NameOf, CopyAttrs, AttrValue, ListedClass, IsClassName;
  }

  lemma ListedExactly(name: string)
    ensures IsClassName(name) <==> ListedClass(name)
  {
    hide MapChars;
  }

  /** The element after it: the operation of a class; below an operation, nothing. */
  lemma OperationStep(st: State, class_: string, tag: Tag)
    requires PlainElement(class_) && PlainElement(tag.local) && st.stack != [] && Top(st.stack) == class_
    requires st.msg.rawRoot != ""
    requires if ListedClass(class_) then st.msg.className == class_ && st.msg.operationName == ""
             else st.msg.className == "" && st.msg.operationName == class_
    ensures Step(st, tag.Token()) ==
            Ok(State(st.stack + [tag.local],
                     if ListedClass(class_) then
                       st.msg.(operationName := tag.local, fields := CopyAttrs(st.msg.fields, tag.attrs),
                               sessionID := if st.msg.sessionID != "" then st.msg.sessionID
                                            else AttrValue(tag.attrs, "sessionId"))
                     else st.msg))
  {
    StructuralNames(tag.local);
    StructuralNames(class_);
    hide NameOf, CopyAttrs, AttrValue, ListedClass, IsClassName, MapChars;
  }

  // ----- whole shapes -----

  /** Body, class and operation, wherever the body stands. */
  lemma BodyRun(st: State, body: Tag, class_: Tag, op: Tag, rest: seq<Token>)
    requires IsBody(body) && PlainElement(class_.local) && PlainElement(op.local) && Unread(st.msg)
    ensures var m := Rooted(st.msg, body);
            var read := Identified(m.(rootKind := if m.rootKind == Unknown then G2SBody else m.rootKind), body.attrs);
            Run(st, [body.Token()] + ([class_.Token()] + ([op.Token()] + rest)))
            == Run(State(st.stack + [body.local] + [class_.local] + [op.local], Classed(read, class_, op)), rest)
  {
    BodyNamed(body);
    hide Step, ListedClass, PlainElement, EqualFold, CopyAttrs, AttrValue;
    BodyStep(st, body);
    RunStep(st, body.Token(), [class_.Token()] + ([op.Token()] + rest));
    var s1 := Step(st, body.Token()).value;
    ClassStep(s1, class_);
    RunStep(s1, class_.Token(), [op.Token()] + rest);
    var s2 := Step(s1, class_.Token()).value;
    OperationStep(s2, class_.local, op);
    RunStep(s2, op.Token(), rest);
  }

  lemma BodyNamed(body: Tag)
    requires IsBody(body)
    ensures body.local != ""
  {
    FoldKeepsLength(body.local, "g2sBody");
  }

  lemma MessageNamed(message: Tag)
    requires IsMessage(message)
    ensures message.local != ""
  {
    FoldKeepsLength(message.local, "g2sMessage");
  }

  /** Any number of closing tags after the last element. */
  function Ends(n: nat): seq<Token> {
    seq(n, _ => End)
  }

  /** A g2sMessage: kind, class, operation, identity, session and fields. */
  lemma MessageShape(message: Tag, body: Tag, class_: Tag, op: Tag)
    requires IsMessage(message) && IsBody(body) && PlainElement(class_.local) && PlainElement(op.local)
    ensures var tokens := [message.Token()] + ([body.Token()] + ([class_.Token()] + ([op.Token()] + Ends(4))));
            Parse(Document(tokens, true)) ==
            Ok(Classed(Identified(EMPTY_MESSAGE.(rootKind := G2SMessage, rawRoot := message.local,
                                                 rootNamespace := message.space), body.attrs), class_, op))
  {
    MessageNamed(message);
    OperationNamed(class_.local, op.local);
    hide Step, Run, PlainElement, EqualFold, ListedClass, CopyAttrs, AttrValue;
    var inner := [body.Token()] + ([class_.Token()] + ([op.Token()] + Ends(4)));
    MessageStep(INITIAL, message);
    RunStep(INITIAL, message.Token(), inner);
    var s1 := Step(INITIAL, message.Token()).value;
    BodyRun(s1, body, class_, op, Ends(4));
    var m := Classed(Identified(EMPTY_MESSAGE.(rootKind := G2SMessage, rawRoot := message.local,
                                               rootNamespace := message.space), body.attrs), class_, op);
    ParseEnds([message.Token()] + inner, State(s1.stack + [body.local] + [class_.local] + [op.local], m), 4);
  }

  lemma OperationNamed(class_: string, op: string)
    requires PlainElement(class_) && PlainElement(op)
    ensures class_ != "" && op != ""
  {
  }

  /** So the class of a message is its class element and the operation the element inside it, if and only if the
      class is a listed one; else the class element is itself the operation. */
  lemma ClassExactly(message: Tag, body: Tag, class_: Tag, op: Tag)
    requires IsMessage(message) && IsBody(body) && PlainElement(class_.local) && PlainElement(op.local)
    ensures var tokens := [message.Token()] + ([body.Token()] + ([class_.Token()] + ([op.Token()] + Ends(4))));
            var r := Parse(Document(tokens, true));
            && r.Ok? && r.value.rootKind == G2SMessage
            && (r.value.className == class_.local && r.value.operationName == op.local <==> ListedClass(class_.local))
            && (!ListedClass(class_.local) ==> r.value.className == "" && r.value.operationName == class_.local)
  {
    OperationNamed(class_.local, op.local);
    MessageShape(message, body, class_, op);
    hide Parse, PlainElement, ListedClass, EqualFold, CopyAttrs, AttrValue;
  }

  /** A bare g2sBody. */
  lemma BodyShape(body: Tag, class_: Tag, op: Tag)
    requires IsBody(body) && PlainElement(class_.local) && PlainElement(op.local)
    ensures var tokens := [body.Token()] + ([class_.Token()] + ([op.Token()] + Ends(3)));
            Parse(Document(tokens, true)) ==
            Ok(Classed(Identified(EMPTY_MESSAGE.(rootKind := G2SBody, rawRoot := body.local, rootNamespace := body.space),
                                  body.attrs), class_, op))
  {
    OperationNamed(class_.local, op.local);
    hide Step, Run, PlainElement, EqualFold, ListedClass, CopyAttrs, AttrValue;
    BodyRun(INITIAL, body, class_, op, Ends(3));
    var m := Classed(Identified(EMPTY_MESSAGE.(rootKind := G2SBody, rawRoot := body.local, rootNamespace := body.space),
                                body.attrs), class_, op);
    ParseEnds([body.Token()] + ([class_.Token()] + ([op.Token()] + Ends(3))),
              State(INITIAL.stack + [body.local] + [class_.local] + [op.local], m), 3);
  }

  /** A bare acknowledgement, with its identity. */
  lemma AckShape(ack: Tag)
    requires IsAck(ack)
    ensures Parse(Document([ack.Token()] + Ends(1), true)) ==
            Ok(Identified(EMPTY_MESSAGE.(rootKind := G2SAck, operationName := "g2sAck", rawRoot := ack.local,
                                         rootNamespace := ack.space), ack.attrs))
  {
    hide Step, Run, EqualFold, CopyAttrs, AttrValue;
    AckStep(INITIAL, ack);
    RunStep(INITIAL, ack.Token(), Ends(1));
    ParseEnds([ack.Token()] + Ends(1), Step(INITIAL, ack.Token()).value, 1);
  }

  // ----- inside a SOAP envelope -----

  function InSoap(envelope: Tag): Message {
    EMPTY_MESSAGE.(rawRoot := envelope.local, rootNamespace := envelope.space, soapNamespace := envelope.space,
                   hasEnvelope := true, hasBody := true)
  }

  /** Envelope and Body, for no namespace or that of SOAP 1.1 or 1.2; any other namespace is refused. */
  lemma SoapRun(envelope: Tag, soapBody: Tag, rest: seq<Token>)
    requires IsEnvelope(envelope) && IsSoapBody(soapBody)
    ensures Run(INITIAL, [envelope.Token()] + ([soapBody.Token()] + rest)) ==
            if SoapSupported(envelope.space)
            then Run(State(INITIAL.stack + [envelope.local] + [soapBody.local], InSoap(envelope)), rest)
            else Err(UnsupportedSoapNamespace(envelope.space))
  {
    EnvelopeStep(envelope);
    RunStep(INITIAL, envelope.Token(), [soapBody.Token()] + rest);
    if SoapSupported(envelope.space) {
      var s1 := Step(INITIAL, envelope.Token()).value;
      SoapBodyStep(s1, soapBody);
      RunStep(s1, soapBody.Token(), rest);
      hide Step, Run, EqualFold;
    }
  }

  lemma EnvelopeStep(tag: Tag)
    requires IsEnvelope(tag)
    ensures tag.local != ""
    ensures Step(INITIAL, tag.Token()) ==
            if SoapSupported(tag.space) then Ok(State(INITIAL.stack + [tag.local], InSoap(tag).(hasBody := false)))
            else Err(UnsupportedSoapNamespace(tag.space))
  {
    FoldKeepsLength(tag.local, "Envelope");
    StructuralNames(tag.local);
    hide NameOf, PlaceIn, Content;
  }

  lemma SoapBodyStep(st: State, tag: Tag)
    requires IsSoapBody(tag) && st.msg.hasEnvelope && st.msg.rawRoot != ""
    ensures Step(st, tag.Token()) == Ok(State(st.stack + [tag.local], st.msg.(hasBody := true)))
  {
    StructuralNames(tag.local);
    hide NameOf, PlaceIn, Content;
  }

  /** The same message inside a SOAP body reads the same, but for the root and the envelope. */
  lemma SoapMessageShape(envelope: Tag, soapBody: Tag, message: Tag, body: Tag, class_: Tag, op: Tag)
    requires IsEnvelope(envelope) && IsSoapBody(soapBody) && SoapSupported(envelope.space)
    requires IsMessage(message) && IsBody(body) && PlainElement(class_.local) && PlainElement(op.local)
    ensures var inner := [message.Token()] + ([body.Token()] + ([class_.Token()] + ([op.Token()] + Ends(6))));
            Parse(Document([envelope.Token()] + ([soapBody.Token()] + inner), true)) ==
            Ok(Classed(Identified(InSoap(envelope).(rootKind := G2SMessage, rootNamespace := message.space), body.attrs),
                       class_, op))
  {
    OperationNamed(class_.local, op.local);
    EnvelopeStep(envelope);
    hide Step, Run, PlainElement, EqualFold, ListedClass, CopyAttrs, AttrValue, SoapSupported;
    var deep := [body.Token()] + ([class_.Token()] + ([op.Token()] + Ends(6)));
    SoapRun(envelope, soapBody, [message.Token()] + deep);
    var s0 := State(INITIAL.stack + [envelope.local] + [soapBody.local], InSoap(envelope));
    MessageStep(s0, message);
    RunStep(s0, message.Token(), deep);
    var s1 := Step(s0, message.Token()).value;
    BodyRun(s1, body, class_, op, Ends(6));
    var m := Classed(Identified(InSoap(envelope).(rootKind := G2SMessage, rootNamespace := message.space), body.attrs),
                     class_, op);
    ParseEnds([envelope.Token()] + ([soapBody.Token()] + ([message.Token()] + deep)),
              State(s1.stack + [body.local] + [class_.local] + [op.local], m), 6);
  }

  /** An operation straight inside a SOAP body: a legacy message, its identity and session in its attributes. */
  lemma SoapOperationShape(envelope: Tag, soapBody: Tag, op: Tag)
    requires IsEnvelope(envelope) && IsSoapBody(soapBody) && SoapSupported(envelope.space) && PlainElement(op.local)
    ensures Parse(Document([envelope.Token()] + ([soapBody.Token()] + ([op.Token()] + Ends(3))), true)) ==
            Ok(InSoap(envelope).(rootKind := Legacy, operationName := op.local, rootNamespace := op.space,
                                 hostID := AttrValue(op.attrs, "hostId"), egmID := AttrValue(op.attrs, "egmId"),
                                 sessionID := AttrValue(op.attrs, "sessionId"), fields := CopyAttrs(map[], op.attrs)))
  {
    OperationNamed(op.local, op.local);
    EnvelopeStep(envelope);
    var s0 := State(INITIAL.stack + [envelope.local] + [soapBody.local], InSoap(envelope));
    LegacyStep(s0, op);
    hide Step, Run, PlainElement, EqualFold, CopyAttrs, AttrValue, SoapSupported;
    SoapRun(envelope, soapBody, [op.Token()] + Ends(3));
    RunStep(s0, op.Token(), Ends(3));
    ParseEnds([envelope.Token()] + ([soapBody.Token()] + ([op.Token()] + Ends(3))), Step(s0, op.Token()).value, 3);
  }

  lemma LegacyStep(st: State, tag: Tag)
    requires PlainElement(tag.local) && st.stack != [] && EqualFold(Top(st.stack), "Body")
    requires st.msg.hasEnvelope && st.msg.rawRoot != "" && st.msg.className == "" && st.msg.operationName == ""
    requires st.msg.hostID == "" && st.msg.egmID == "" && st.msg.sessionID == ""
    ensures Step(st, tag.Token()) ==
            Ok(State(st.stack + [tag.local],
                     st.msg.(rootKind := Legacy, operationName := tag.local, rootNamespace := tag.space,
                             hostID := AttrValue(tag.attrs, "hostId"), egmID := AttrValue(tag.attrs, "egmId"),
                             sessionID := AttrValue(tag.attrs, "sessionId"), fields := CopyAttrs(st.msg.fields, tag.attrs))))
  {
    StructuralNames(tag.local);
    StructuralNames(Top(st.stack));
    hide NameOf, IsClassName, CopyAttrs, AttrValue;
  }

  // ----- attributes -----

  /** Of attributes with one local name the first is looked up. */
  lemma {:induction false} FirstAttr(attrs: seq<Attr>, name: string, i: nat)
    requires i <= |attrs| && forall j :: 0 <= j < i ==> attrs[j].local != name
    ensures i == |attrs| ==> AttrValue(attrs, name) == ""
    ensures i < |attrs| && attrs[i].local == name ==> AttrValue(attrs, name) == attrs[i].value
  {
    if i > 0 { FirstAttr(attrs[1..], name, i - 1); }
  }

  /** And the last is copied into the fields; a field that no attribute names stays. */
  lemma {:induction false} LastAttr(fields: map<string, string>, attrs: seq<Attr>, name: string, i: nat)
    requires i <= |attrs| && forall j :: i <= j < |attrs| ==> attrs[j].local != name
    ensures var c := CopyAttrs(fields, attrs);
            if i > 0 && attrs[i - 1].local == name then name in c && c[name] == attrs[i - 1].value
            else i == 0 ==> (name in c <==> name in fields) && (name in fields ==> c[name] == fields[name])
    decreases |attrs|
  {
    if attrs != [] {
      LastAttr(fields[attrs[0].local := attrs[0].value], attrs[1..], name, if i > 0 then i - 1 else 0);
    }
  }

  // ----- text -----

  /** Text fills the field named by its element, the last one counting, and the identity it is an alias of, the
      first one counting; blank text and text outside any element do nothing. */
  lemma TextFills(st: State, raw: string)
    ensures Step(st, CharData(raw)).Ok?
    ensures var n, local, text := Step(st, CharData(raw)).value, Top(st.stack), TrimSpace(raw);
            if text == "" || st.stack == [] then n == st
            else
              && n.stack == st.stack && n.msg.fields == st.msg.fields[local := text]
              && n.msg.hostID == (if st.msg.hostID == "" && (local == "hostId" || local == "hostID" || local == "host_id")
                                  then text else st.msg.hostID)
              && n.msg.egmID == (if st.msg.egmID == "" && (local == "egmId" || local == "egmID" || local == "egm_id")
                                 then text else st.msg.egmID)
              && n.msg.sessionID == (if st.msg.sessionID == "" && (local == "sessionId" || local == "session_id")
                                     then text else st.msg.sessionID)
              && n.msg.dateTimeSent == (if st.msg.dateTimeSent == "" && local == "dateTimeSent"
                                        then text else st.msg.dateTimeSent)
              && n.msg.operationName == st.msg.operationName && n.msg.className == st.msg.className
              && n.msg.rootKind == st.msg.rootKind
  {
    hide TrimSpace;
    AliasesApart(Top(st.stack));
  }

  lemma AliasesApart(local: string)
    ensures local in {"hostId", "hostID", "host_id"} ==> local !in {"egmId", "egmID", "egm_id"}
    ensures local in {"hostId", "hostID", "host_id"} ==> local !in {"sessionId", "session_id"} && local != "dateTimeSent"
    ensures local in {"egmId", "egmID", "egm_id"} ==> local !in {"sessionId", "session_id"} && local != "dateTimeSent"
    ensures local in {"sessionId", "session_id"} ==> local != "dateTimeSent"
  {
    assert "hostId"[0] == 'h' && "hostID"[0] == 'h' && "host_id"[0] == 'h';
    assert "egmId"[0] == 'e' && "egmID"[0] == 'e' && "egm_id"[0] == 'e';
    assert "sessionId"[0] == 's' && "session_id"[0] == 's' && "dateTimeSent"[0] == 'd';
  }
}
