/** The two renderings of an outbound G2S operation, as the tokens their text lexes to, and
    the proof that the parser undoes both. */
module Renderer {
  import opened Text
  import opened Envelope

  datatype Config = Config(
    hostID: string, egmID: string,
    namespace: string,            // g2s_xml.namespace
    soapNamespace: string,        // the pack's "soapenv" namespace, or empty
    g2sNamespace: string)         // the pack's "g2s" namespace, or empty

  /** The attributes that are written: those with a name and a value. */
  function Written(attrs: map<string, string>): map<string, string> {
    map k | k in attrs && k != "" && attrs[k] != "" :: attrs[k]
  }

  function AttrsOf(m: map<string, string>, keys: seq<string>): (out: seq<Attr>)
    requires forall k <- keys :: k in m
  {
    if keys == [] then [] else [Attr(keys[0], m[keys[0]])] + AttrsOf(m, keys[1..])
  }

  ghost function RenderAttrs(attrs: map<string, string>): seq<Attr> {
    SortedKeysSorted(Written(attrs).Keys);
    AttrsOf(attrs, SortedKeys(Written(attrs).Keys))
  }

  lemma {:induction false} AttrsOfSnoc(m: map<string, string>, keys: seq<string>, k: string)
    requires k in m && forall x <- keys :: x in m
    ensures AttrsOf(m, keys + [k]) == AttrsOf(m, keys) + [Attr(k, m[k])]
  {
    if keys == [] {
      assert keys + [k] == [k];
    } else {
      assert (keys + [k])[1..] == keys[1..] + [k];
      AttrsOfSnoc(m, keys[1..], k);
    }
  }

  /** writeXMLAttrs: collect the keys worth writing in whatever order the map yields them,
      sort them, write them. */
  method WriteXMLAttrs(attrs: map<string, string>) returns (out: seq<Attr>)
    ensures out == RenderAttrs(attrs)
  {
    var keys: set<string> := {};
    var todo := attrs.Keys;
    while todo != {}
      invariant todo <= attrs.Keys
      invariant forall k :: k in keys <==> k in Written(attrs) && k !in todo
    {
      var k :| k in todo;
      if k != "" && attrs[k] != "" {
        keys := keys + {k};
      }
      todo := todo - {k};
    }
    assert keys == Written(attrs).Keys;
    var sorted := SortStrings(keys);
    SortedKeysSorted(keys);
    out := WriteInOrder(attrs, sorted);
  }

  method WriteInOrder(attrs: map<string, string>, sorted: seq<string>) returns (out: seq<Attr>)
    requires forall k <- sorted :: k in attrs
    ensures out == AttrsOf(attrs, sorted)
  {
    out := [];
    var i := 0;
    while i < |sorted|
      invariant 0 <= i <= |sorted|
      invariant out == AttrsOf(attrs, sorted[..i])
    {
      AttrsOfSnoc(attrs, sorted[..i], sorted[i]);
      assert sorted[..i + 1] == sorted[..i] + [sorted[i]];
      out := out + [Attr(sorted[i], attrs[sorted[i]])];
      i := i + 1;
    }
    assert sorted[..i] == sorted;
  }

  lemma {:induction false} CopyAttrsOf(fields: map<string, string>, m: map<string, string>, keys: seq<string>)
    requires forall k <- keys :: k in m
    ensures var c := CopyAttrs(fields, AttrsOf(m, keys));
            && (forall k :: k in c <==> k in fields || k in keys)
            && (forall k <- c :: c[k] == if k in keys then m[k] else fields[k])
    decreases |keys|
  {
    if keys != [] {
      CopyAttrsOf(fields[keys[0] := m[keys[0]]], m, keys[1..]);
      assert forall k :: k in keys <==> k == keys[0] || k in keys[1..];
    }
  }

  lemma {:induction false} AttrValueOf(m: map<string, string>, keys: seq<string>, name: string)
    requires forall k <- keys :: k in m
    ensures AttrValue(AttrsOf(m, keys), name) == if name in keys then m[name] else ""
  {
    if keys != [] {
      AttrValueOf(m, keys[1..], name);
      assert name in keys <==> name == keys[0] || name in keys[1..];
    }
  }

  lemma CopyWritten(fields: map<string, string>, attrs: map<string, string>, keys: seq<string>)
    requires forall k :: k in keys <==> k in Written(attrs)
    ensures CopyAttrs(fields, AttrsOf(attrs, keys)) == fields + Written(attrs)
  {
    CopyAttrsOf(fields, attrs, keys);
  }

  /** Copying the written attributes adds exactly them. */
  lemma CopyRendered(fields: map<string, string>, attrs: map<string, string>)
    ensures CopyAttrs(fields, RenderAttrs(attrs)) == fields + Written(attrs)
  {
    SortedKeysSorted(Written(attrs).Keys);
    CopyWritten(fields, attrs, SortedKeys(Written(attrs).Keys));
  }

  lemma FindRendered(attrs: map<string, string>, name: string)
    ensures AttrValue(RenderAttrs(attrs), name) == Get(Written(attrs), name)
  {
    SortedKeysSorted(Written(attrs).Keys);
    AttrValueOf(attrs, SortedKeys(Written(attrs).Keys), name);
  }

  lemma {:induction false} AttrsOfAt(m: map<string, string>, keys: seq<string>)
    requires forall k <- keys :: k in m
    ensures |AttrsOf(m, keys)| == |keys|
    ensures forall i :: 0 <= i < |keys| ==> AttrsOf(m, keys)[i] == Attr(keys[i], m[keys[i]])
  {
    if keys != [] { AttrsOfAt(m, keys[1..]); }
  }

  /** What is written: the attributes that have a name and a value, in increasing order of their names. */
  lemma RenderedAttrs(attrs: map<string, string>)
    ensures var out := RenderAttrs(attrs);
            && (forall i, j :: 0 <= i < j < |out| ==> StrLess(out[i].local, out[j].local))
            && (forall a :: a in out <==> a.local != "" && a.value != "" && a.local in attrs && attrs[a.local] == a.value)
  {
    SortedKeysSorted(Written(attrs).Keys);
    var keys := SortedKeys(Written(attrs).Keys);
    assert forall k :: k in keys <==> k != "" && k in attrs && attrs[k] != "";
    var out := RenderAttrs(attrs);
    assert out == AttrsOf(attrs, keys);
    AttrsOfAt(attrs, keys);
    hide StrLess, SortedKeys, AttrsOf, RenderAttrs, Written;
    forall a: Attr ensures a in out <==> a.local in keys && a.value == attrs[a.local] {
      if a.local in keys && a.value == attrs[a.local] {
        var i :| 0 <= i < |keys| && keys[i] == a.local;
        assert out[i] == a;
      }
    }
  }

  /** A map lookup that yields the empty string for a missing key, as in Go. */
  function Get(m: map<string, string>, key: string): string {
    if key in m then m[key] else ""
  }

  // ----- the schema-shaped message -----

  function BodyAttrs(cfg: Config, now: string): map<string, string> {
    map["hostId" := cfg.hostID, "egmId" := cfg.egmID, "dateTimeSent" := now]
  }

  ghost function XSDTokens(cfg: Config, operation: string, attrs: map<string, string>, now: string): seq<Token> {
    var ns := OrElse(cfg.namespace, G2S_DEFAULT_NAMESPACE);
    [Start("g2sMessage", ns, [Attr("g2s", ns)])]
    + ([Start("g2sBody", ns, RenderAttrs(BodyAttrs(cfg, now)))]
    + ([Start("communications", ns, [])]
    + ([Start(operation, ns, RenderAttrs(attrs))] + [End, End, End, End])))
  }

  /** renderXSDCommunicationsMessage. */
  method RenderXSDCommunicationsMessage(cfg: Config, operation: string, attrs: map<string, string>, now: string)
    returns (tokens: seq<Token>)
    ensures tokens == XSDTokens(cfg, operation, attrs, now)
  {
    var ns := OrElse(cfg.namespace, G2S_DEFAULT_NAMESPACE);
    var bodyAttrs := WriteXMLAttrs(BodyAttrs(cfg, now));
    var operationAttrs := WriteXMLAttrs(attrs);
    tokens := [Start("g2sMessage", ns, [Attr("g2s", ns)])];
    tokens := tokens + [Start("g2sBody", ns, bodyAttrs)];
    tokens := tokens + [Start("communications", ns, [])];
    tokens := tokens + [Start(operation, ns, operationAttrs)];
    tokens := tokens + [End, End, End, End];
    ConcatNested([Start("g2sMessage", ns, [Attr("g2s", ns)])], [Start("g2sBody", ns, bodyAttrs)],
                 [Start("communications", ns, [])], [Start(operation, ns, operationAttrs)], [End, End, End, End]);
  }

  lemma ConcatNested(a: seq<Token>, b: seq<Token>, c: seq<Token>, d: seq<Token>, e: seq<Token>)
    ensures a + (b + (c + (d + e))) == a + b + c + d + e
  {
  }

  /** The parser gives back what the renderer was told. */
  ghost predicate XSDRecovered(cfg: Config, operation: string, attrs: map<string, string>, now: string, r: Result<Message, ParseError>) {
    r.Ok?
    && r.value.rootKind == G2SMessage && r.value.className == "communications" && r.value.operationName == operation
    && r.value.hostID == cfg.hostID && r.value.egmID == cfg.egmID && r.value.dateTimeSent == now
    && r.value.sessionID == Get(Written(attrs), "sessionId")
    && r.value.rawRoot == "g2sMessage" && r.value.soapNamespace == "" && !r.value.hasEnvelope
    && r.value.rootNamespace == OrElse(cfg.namespace, "http://www.gamingstandards.com/g2s/schemas/v1.0.3")
    && r.value.fields == Written(BodyAttrs(cfg, now)) + Written(attrs)
  }

  /** An operation the message grammar can carry: a name, and none of the structural ones. */
  predicate Carried(operation: string) {
    operation != "" && (NameOf(operation) == Plain || NameOf(operation) == BodyName)
  }

  lemma RunStep(st: State, token: Token, rest: seq<Token>)
    ensures Step(st, token).Ok? ==> Run(st, [token] + rest) == Run(Step(st, token).value, rest)
    ensures Step(st, token).Err? ==> Run(st, [token] + rest) == Step(st, token)
  {
    assert ([token] + rest)[1..] == rest;
  }

  lemma {:induction false} RunEnds(st: State, n: nat)
    ensures Run(st, seq(n, _ => End)).Ok? && Run(st, seq(n, _ => End)).value.msg == st.msg
    decreases n
  {
    if n > 0 {
      RunStep(st, End, seq(n - 1, _ => End));
      assert seq(n, _ => End) == [End] + seq(n - 1, _ => End);
      RunEnds(Step(st, End).value, n - 1);
    }
  }

  /** A run that is down to closing tags parses to the message it has, if that has an operation. */
  lemma ParseEnds(tokens: seq<Token>, st: State, n: nat)
    requires Run(INITIAL, tokens) == Run(st, seq(n, _ => End)) && st.msg.rootKind != Unknown
    ensures Parse(Document(tokens, true)) ==
            if st.msg.operationName == "" then Err(OperationRequired) else Ok(st.msg)
  {
    RunEnds(st, n);
  }

  lemma KnownNames()
    ensures NameOf("g2sMessage") == MessageName && NameOf("g2sBody") == G2SBodyName
    ensures NameOf("communications") == Plain && IsClassName("communications")
    ensures NameOf("Envelope") == EnvelopeName && NameOf("Body") == BodyName
  {
    forall a: string, b: string | |a| != |b| ensures !EqualFold(a, b) {
      if EqualFold(a, b) { FoldKeepsLength(a, b); }
    }
    var s := "communications";
    assert forall i :: 0 <= i < |s| ==> LowerChar(s[i]) == s[i];
    assert MapChars(s, LowerChar) == s;
  }

  lemma BodyIdentity(cfg: Config, now: string)
    ensures var w := Written(BodyAttrs(cfg, now));
            Get(w, "hostId") == cfg.hostID && Get(w, "egmId") == cfg.egmID && Get(w, "dateTimeSent") == now
  {
  }

  lemma BodyStep(cfg: Config, now: string, m: Message)
    requires m.rootKind == G2SMessage && m.hostID == "" && m.egmID == "" && m.dateTimeSent == "" && m.fields == map[]
    ensures CopyIdentity(m, RenderAttrs(BodyAttrs(cfg, now))) ==
            m.(hostID := cfg.hostID, egmID := cfg.egmID, dateTimeSent := now, fields := Written(BodyAttrs(cfg, now)))
  {
    var attrs := BodyAttrs(cfg, now);
    CopyRendered(map[], attrs);
    FindRendered(attrs, "hostId");
    FindRendered(attrs, "egmId");
    FindRendered(attrs, "dateTimeSent");
    BodyIdentity(cfg, now);
    assert map[] + Written(attrs) == Written(attrs);
  }

  lemma MessageOpens(ns: string)
    ensures Step(INITIAL, Start("g2sMessage", ns, [Attr("g2s", ns)])) ==
            Ok(State(["g2sMessage"],
                     EMPTY_MESSAGE.(rootKind := G2SMessage, rawRoot := "g2sMessage", rootNamespace := ns)))
  {
    KnownNames();
    assert INITIAL.stack + ["g2sMessage"] == ["g2sMessage"];
  }

  lemma BodyOpens(cfg: Config, now: string, ns: string, m: Message)
    requires m.rootKind == G2SMessage && m.hostID == "" && m.egmID == "" && m.dateTimeSent == "" && m.fields == map[]
    requires m.rawRoot != "" && !m.hasEnvelope
    ensures Step(State(["g2sMessage"], m), Start("g2sBody", ns, RenderAttrs(BodyAttrs(cfg, now)))) ==
            Ok(State(["g2sMessage", "g2sBody"],
                     m.(hostID := cfg.hostID, egmID := cfg.egmID, dateTimeSent := now, fields := Written(BodyAttrs(cfg, now)))))
  {
    KnownNames();
    BodyStep(cfg, now, m);
    assert ["g2sMessage"] + ["g2sBody"] == ["g2sMessage", "g2sBody"];
  }

  lemma ClassOpens(ns: string, m: Message)
    requires m.rootKind == G2SMessage && m.rawRoot != "" && m.className == "" && m.operationName == "" && !m.hasEnvelope
    ensures Step(State(["g2sMessage", "g2sBody"], m), Start("communications", ns, [])) ==
            Ok(State(["g2sMessage", "g2sBody", "communications"], m.(className := "communications")))
  {
    KnownNames();
    assert ["g2sMessage", "g2sBody"] + ["communications"] == ["g2sMessage", "g2sBody", "communications"];
  }

  /** The state after the three enclosing elements, whatever operation follows. */
  lemma XSDPrefix(cfg: Config, now: string, rest: seq<Token>) returns (st: State)
    ensures var ns := OrElse(cfg.namespace, G2S_DEFAULT_NAMESPACE);
            Run(INITIAL, [Start("g2sMessage", ns, [Attr("g2s", ns)])]
                + ([Start("g2sBody", ns, RenderAttrs(BodyAttrs(cfg, now)))] + ([Start("communications", ns, [])] + rest)))
            == Run(st, rest)
    ensures st.stack == ["g2sMessage", "g2sBody", "communications"]
    ensures st.msg == EMPTY_MESSAGE.(rootKind := G2SMessage, className := "communications", rawRoot := "g2sMessage",
              rootNamespace := OrElse(cfg.namespace, G2S_DEFAULT_NAMESPACE),
              hostID := cfg.hostID, egmID := cfg.egmID, dateTimeSent := now, fields := Written(BodyAttrs(cfg, now)))
  {
    var ns := OrElse(cfg.namespace, G2S_DEFAULT_NAMESPACE);
    var t0 := Start("g2sMessage", ns, [Attr("g2s", ns)]);
    var t1 := Start("g2sBody", ns, RenderAttrs(BodyAttrs(cfg, now)));
    var t2 := Start("communications", ns, []);
    MessageOpens(ns);
    RunStep(INITIAL, t0, [t1] + ([t2] + rest));
    var s0 := Step(INITIAL, t0).value;
    BodyOpens(cfg, now, ns, s0.msg);
    RunStep(s0, t1, [t2] + rest);
    var s1 := Step(s0, t1).value;
    ClassOpens(ns, s1.msg);
    RunStep(s1, t2, rest);
    st := Step(s1, t2).value;
  }

  /** Where an operation element is met: inside the communications class. */
  ghost predicate InCommunications(st: State) {
    && st.stack == ["g2sMessage", "g2sBody", "communications"]
    && st.msg.className == "communications" && st.msg.operationName == "" && st.msg.rootKind == G2SMessage
    && st.msg.sessionID == "" && !st.msg.hasEnvelope && st.msg.rawRoot != ""
  }

  lemma CarriedOperation(st: State, operation: string, space: string, attrs: map<string, string>)
    requires InCommunications(st) && Carried(operation)
    ensures Step(st, Start(operation, space, RenderAttrs(attrs))) ==
            Ok(State(st.stack + [operation], st.msg.(operationName := operation,
              sessionID := Get(Written(attrs), "sessionId"), fields := st.msg.fields + Written(attrs))))
  {
    CopyRendered(st.msg.fields, attrs);
    FindRendered(attrs, "sessionId");
    KnownNames();
    assert PlaceIn(st.msg, "communications") == Place(false, true, false);
  }

  lemma UncarriedOperation(st: State, operation: string, space: string, attrs: seq<Attr>)
    requires InCommunications(st) && !Carried(operation)
    ensures var r := Step(st, Start(operation, space, attrs));
            r.Ok? ==> r.value.msg.rootKind != Unknown && (r.value.msg.operationName == "" || r.value.msg.rootKind == G2SAck)
  {
    NoName();
  }

  /** Parsing the schema rendering recovers the message exactly when the operation is one the
      grammar can carry. */
  lemma XSDRoundTrip(cfg: Config, operation: string, attrs: map<string, string>, now: string)
    ensures XSDRecovered(cfg, operation, attrs, now, Parse(Document(XSDTokens(cfg, operation, attrs, now), true)))
       <==> Carried(operation)
  {
    var ns := OrElse(cfg.namespace, G2S_DEFAULT_NAMESPACE);
    var t3 := Start(operation, ns, RenderAttrs(attrs));
    var ends := [End, End, End, End];
    var tokens := XSDTokens(cfg, operation, attrs, now);
    var st := XSDPrefix(cfg, now, [t3] + ends);
    RunStep(st, t3, ends);
    if Carried(operation) { CarriedOperation(st, operation, ns, attrs); } else { UncarriedOperation(st, operation, ns, t3.attrs); }
    if Step(st, t3).Ok? {
      assert ends == seq(4, _ => End);
      ParseEnds(tokens, Step(st, t3).value, 4);
    }
  }

  // ----- the legacy SOAP message -----

  /** An element that holds only text; empty text yields no token. */
  function FieldTokens(name: string, space: string, text: string): seq<Token> {
    [Start(name, space, [])] + ((if text == "" then [] else [CharData(text)]) + [End])
  }

  function FieldsTokens(space: string, fields: seq<(string, string)>): seq<Token> {
    if fields == [] then [] else FieldTokens(fields[0].0, space, fields[0].1) + FieldsTokens(space, fields[1..])
  }

  /** Envelope, body and operation, opened and later closed around what is inside. */
  function Enveloped(soap: string, g2s: string, operation: string, inner: seq<Token>): seq<Token> {
    [Start("Envelope", soap, [Attr("soapenv", soap), Attr("g2s", g2s)])]
    + ([Start("Body", soap, [])]
    + ([Start(operation, g2s, [])] + (inner + [End, End, End])))
  }

  /** The tokens of a legacy message that was read with these two namespaces and texts. */
  function LegacyTokens(soap: string, g2s: string, operation: string, fields: seq<(string, string)>): seq<Token> {
    Enveloped(soap, g2s, operation, FieldsTokens(g2s, fields))
  }

  /** What a field adds to a message: its trimmed text, if any. */
  function AddField(m: Message, field: (string, string)): Message {
    if TrimSpace(field.1) == "" then m else Chars(m, field.0, TrimSpace(field.1))
  }

  function AddFields(m: Message, fields: seq<(string, string)>): Message
    decreases |fields|
  {
    if fields == [] then m else AddFields(AddField(m, fields[0]), fields[1..])
  }

  ghost predicate InsideOperation(st: State) {
    && st.stack != [] && NameOf(Top(st.stack)) == Plain
    && st.msg.className == "" && st.msg.operationName != "" && st.msg.rawRoot != ""
  }

  lemma FieldStart(st: State, name: string, space: string)
    requires InsideOperation(st) && NameOf(name) == Plain
    ensures Step(st, Start(name, space, [])) == Ok(State(st.stack + [name], st.msg))
  {
  }

  lemma FieldEnd(stack: seq<string>, name: string, m: Message)
    ensures Step(State(stack + [name], m), End) == Ok(State(stack, m))
  {
    assert (stack + [name])[..|stack|] == stack;
  }

  lemma FieldText(stack: seq<string>, name: string, m: Message, text: string)
    ensures Step(State(stack + [name], m), CharData(text)) == Ok(State(stack + [name], AddField(m, (name, text))))
  {
  }

  lemma FieldRunEmpty(st: State, name: string, space: string, rest: seq<Token>)
    requires InsideOperation(st) && NameOf(name) == Plain
    ensures Run(st, FieldTokens(name, space, "") + rest) == Run(st, rest)
  {
    FieldStart(st, name, space);
    FieldEnd(st.stack, name, st.msg);
    RunStep(State(st.stack + [name], st.msg), End, rest);
    RunStep(st, Start(name, space, []), [End] + rest);
    assert FieldTokens(name, space, "") + rest == [Start(name, space, [])] + ([End] + rest);
  }

  lemma FieldRun(st: State, name: string, space: string, text: string, rest: seq<Token>)
    requires InsideOperation(st) && NameOf(name) == Plain
    ensures Run(st, FieldTokens(name, space, text) + rest) == Run(State(st.stack, AddField(st.msg, (name, text))), rest)
  {
    if text == "" {
      FieldRunEmpty(st, name, space, rest);
    } else {
      var added := AddField(st.msg, (name, text));
      FieldStart(st, name, space);
      FieldText(st.stack, name, st.msg, text);
      FieldEnd(st.stack, name, added);
      RunStep(State(st.stack + [name], added), End, rest);
      RunStep(State(st.stack + [name], st.msg), CharData(text), [End] + rest);
      RunStep(st, Start(name, space, []), [CharData(text)] + ([End] + rest));
      assert FieldTokens(name, space, text) + rest == [Start(name, space, [])] + ([CharData(text)] + ([End] + rest));
    }
  }

  lemma AddFieldKeeps(m: Message, field: (string, string))
    ensures var r := AddField(m, field);
            r.className == m.className && r.operationName == m.operationName && r.rawRoot == m.rawRoot
            && r.rootKind == m.rootKind
  {
  }

  lemma {:induction false} FieldsKeep(m: Message, fields: seq<(string, string)>)
    ensures AddFields(m, fields).operationName == m.operationName && AddFields(m, fields).rootKind == m.rootKind
    decreases |fields|
  {
    if fields != [] {
      AddFieldKeeps(m, fields[0]);
      FieldsKeep(AddField(m, fields[0]), fields[1..]);
    }
  }

  lemma {:induction false} FieldsRun(st: State, space: string, fields: seq<(string, string)>, rest: seq<Token>)
    requires InsideOperation(st) && forall f <- fields :: NameOf(f.0) == Plain
    ensures Run(st, FieldsTokens(space, fields) + rest) == Run(State(st.stack, AddFields(st.msg, fields)), rest)
    decreases |fields|
  {
    if fields == [] {
      assert FieldsTokens(space, fields) + rest == rest;
    } else {
      var (name, text) := fields[0];
      var tail := FieldsTokens(space, fields[1..]) + rest;
      assert FieldsTokens(space, fields) + rest == FieldTokens(name, space, text) + tail;
      FieldRun(st, name, space, text, tail);
      AddFieldKeeps(st.msg, fields[0]);
      FieldsRun(State(st.stack, AddField(st.msg, fields[0])), space, fields[1..], rest);
    }
  }

  /** The namespaces the parser accepts of an envelope; none at all is one of them. */
  predicate SoapSupported(soap: string) {
    || soap == "" || soap == "http://schemas.xmlsoap.org/soap/envelope/"
    || soap == "http://www.w3.org/2003/05/soap-envelope"
  }

  function LegacyHead(soap: string, g2s: string, operation: string): Message {
    EMPTY_MESSAGE.(rootKind := Legacy, operationName := operation, rawRoot := "Envelope", rootNamespace := g2s,
      soapNamespace := soap, hasEnvelope := true, hasBody := true)
  }

  lemma EnvelopeOpens(soap: string, g2s: string)
    ensures Step(INITIAL, Start("Envelope", soap, [Attr("soapenv", soap), Attr("g2s", g2s)])) ==
            if SoapSupported(soap) then
              Ok(State(["Envelope"], EMPTY_MESSAGE.(rawRoot := "Envelope", rootNamespace := soap, soapNamespace := soap,
                                                    hasEnvelope := true)))
            else Err(UnsupportedSoapNamespace(soap))
  {
    KnownNames();
    assert INITIAL.stack + ["Envelope"] == ["Envelope"];
  }

  lemma SoapBodyOpens(soap: string, m: Message)
    requires m.rawRoot != "" && m.hasEnvelope
    ensures Step(State(["Envelope"], m), Start("Body", soap, [])) == Ok(State(["Envelope", "Body"], m.(hasBody := true)))
  {
    KnownNames();
    assert ["Envelope"] + ["Body"] == ["Envelope", "Body"];
  }

  lemma OperationOpens(g2s: string, operation: string, m: Message)
    requires operation != "" && NameOf(operation) == Plain
    requires m == EMPTY_MESSAGE.(rawRoot := "Envelope", rootNamespace := m.rootNamespace, soapNamespace := m.soapNamespace,
                                 hasEnvelope := true, hasBody := true)
    ensures Step(State(["Envelope", "Body"], m), Start(operation, g2s, [])) ==
            Ok(State(["Envelope", "Body", operation], LegacyHead(m.soapNamespace, g2s, operation)))
  {
    KnownNames();
    assert ["Envelope", "Body"] + [operation] == ["Envelope", "Body", operation];
  }

  /** The state after the envelope, the body and the operation have been opened. */
  lemma LegacyPrefix(soap: string, g2s: string, operation: string, inner: seq<Token>) returns (st: State)
    requires operation != "" && NameOf(operation) == Plain
    ensures Run(INITIAL, Enveloped(soap, g2s, operation, inner))
            == if SoapSupported(soap) then Run(st, inner + [End, End, End]) else Err(UnsupportedSoapNamespace(soap))
    ensures SoapSupported(soap) ==> st == State(["Envelope", "Body", operation], LegacyHead(soap, g2s, operation))
  {
    hide Step, NameOf, SoapSupported;
    var t0 := Start("Envelope", soap, [Attr("soapenv", soap), Attr("g2s", g2s)]);
    var t1, t2 := Start("Body", soap, []), Start(operation, g2s, []);
    var rest := inner + [End, End, End];
    EnvelopeOpens(soap, g2s);
    RunStep(INITIAL, t0, [t1] + ([t2] + rest));
    st := INITIAL;
    if SoapSupported(soap) {
      var s0 := Step(INITIAL, t0).value;
      SoapBodyOpens(soap, s0.msg);
      RunStep(s0, t1, [t2] + rest);
      var s1 := Step(s0, t1).value;
      OperationOpens(g2s, operation, s1.msg);
      RunStep(s1, t2, rest);
      st := Step(s1, t2).value;
    }
  }

  /** What was read as a legacy message parses to its operation and exactly the fields' trimmed, non-empty
      texts, unless the SOAP namespace is not one of the two versions. */
  lemma LegacyTokensParse(soap: string, g2s: string, operation: string, fields: seq<(string, string)>)
    requires operation != "" && NameOf(operation) == Plain
    requires forall f <- fields :: NameOf(f.0) == Plain
    ensures Parse(Document(LegacyTokens(soap, g2s, operation, fields), true)) ==
            if SoapSupported(soap) then Ok(AddFields(LegacyHead(soap, g2s, operation), fields))
            else Err(UnsupportedSoapNamespace(soap))
  {
    var ends := [End, End, End];
    var st := LegacyPrefix(soap, g2s, operation, FieldsTokens(g2s, fields));
    if SoapSupported(soap) {
      FieldsRun(st, g2s, fields, ends);
      FieldsKeep(st.msg, fields);
      assert ends == seq(3, _ => End);
      ParseEnds(LegacyTokens(soap, g2s, operation, fields), State(st.stack, AddFields(st.msg, fields)), 3);
    }
  }

  // ----- reading text that was written without escaping -----

  /** The characters of XML 1.0, section 2.2. */
  predicate XMLChar(c: char) {
    c in "\t\n\r" || ' ' <= c <= '\U{D7FF}' || '\U{E000}' <= c <= '\U{FFFD}' || '\U{10000}' <= c
  }

  /** Text that an XML reader gives back as it stands. */
  predicate LexesToItself(text: string) {
    (forall c <- text :: XMLChar(c) && c !in "<&\r") && !Contains(text, "]]>")
  }

  predicate AttrLexesToItself(value: string) {
    forall c <- value :: XMLChar(c) && c !in "<&\r\""
  }

  /** The text, or every attribute value, of the token is shorter than n or lexes to itself. */
  predicate Below(t: Token, n: nat) {
    match t
    case CharData(raw) => BelowText(raw, n)
    case Start(_, _, attrs) => forall a <- attrs :: BelowText(a.value, n)
    case _ => true
  }

  predicate BelowText(s: string, n: nat) {
    |s| < n || LexesToItself(s)
  }

  /** An XML reader: the tokens it makes of an element's content, and the value of a double-quoted attribute, or
      None where it stops with a syntax error. */
  datatype Lexer = Lexer(content: string -> Option<seq<Token>>, attribute: string -> Option<string>) {
    /** Of the reader it is only used that plain text comes out as it stands, and that what comes out of other
        content is shorter than it (an entity, a CDATA section and a tag all take more room than what they
        stand for) or, a carriage return having become a line feed, is plain. */
    ghost predicate Reads() {
      && (forall text :: LexesToItself(text) ==> content(text) == Some(if text == "" then [] else [CharData(text)]))
      && (forall text :: !LexesToItself(text) && content(text).Some? ==>
            forall t <- content(text).value :: Below(t, |text|))
      && (forall value :: AttrLexesToItself(value) ==> attribute(value) == Some(value))
    }
  }

  /** There are such readers: one that stops at everything that is not plain. */
  function StrictLexer(): Lexer {
    Lexer(text => if !LexesToItself(text) then None else Some(if text == "" then [] else [CharData(text)]),
          value => if AttrLexesToItself(value) then Some(value) else None)
  }

  lemma StrictReads()
    ensures StrictLexer().Reads()
  {
  }

  function SoapSpace(cfg: Config): string {
    OrElse(cfg.soapNamespace, SOAP11_NAMESPACE)
  }

  function G2SSpace(cfg: Config): string {
    OrElse(cfg.g2sNamespace, "urn:g2s:lab")
  }

  /** The fields' elements, as read. */
  function ReadFields(lexer: Lexer, space: string, fields: seq<(string, string)>): Option<seq<Token>> {
    if fields == [] then Some([])
    else
      var content, rest := lexer.content(fields[0].1), ReadFields(lexer, space, fields[1..]);
      if content.None? || rest.None? then None
      else Some([Start(fields[0].0, space, [])] + (content.value + [End]) + rest.value)
  }

  /** A legacy rendering, as read: the namespaces and texts are written into it without any escaping. */
  function LegacyDocument(cfg: Config, operation: string, fields: seq<(string, string)>, lexer: Lexer): Document {
    var soap, g2s := lexer.attribute(SoapSpace(cfg)), lexer.attribute(G2SSpace(cfg));
    if soap.None? || g2s.None? then Document([], false)
    else
      var content := ReadFields(lexer, g2s.value, fields);
      if content.None? then Document([], false)
      else Document(Enveloped(soap.value, g2s.value, operation, content.value), true)
  }

  /** The start tags can be read, and the SOAP namespace in them is supported. */
  predicate HeadReads(cfg: Config, lexer: Lexer) {
    && lexer.attribute(SoapSpace(cfg)).Some? && lexer.attribute(G2SSpace(cfg)).Some?
    && SoapSupported(lexer.attribute(SoapSpace(cfg)).value)
  }

  /** The message once the start tags have been read. */
  function HeadRead(cfg: Config, operation: string, lexer: Lexer): Message {
    var soap, g2s := lexer.attribute(SoapSpace(cfg)), lexer.attribute(G2SSpace(cfg));
    LegacyHead(if soap.Some? then soap.value else "", if g2s.Some? then g2s.value else "", operation)
  }

  lemma PlainNamespaces(cfg: Config, lexer: Lexer)
    requires lexer.Reads() && AttrLexesToItself(SoapSpace(cfg)) && AttrLexesToItself(G2SSpace(cfg))
    ensures HeadReads(cfg, lexer) <==> SoapSupported(SoapSpace(cfg))
  {
  }

  ghost predicate AllPlain(fields: seq<(string, string)>) {
    forall f <- fields :: LexesToItself(f.1)
  }

  lemma {:induction false} PlainFields(lexer: Lexer, space: string, fields: seq<(string, string)>)
    requires lexer.Reads() && AllPlain(fields)
    ensures ReadFields(lexer, space, fields) == Some(FieldsTokens(space, fields))
    decreases |fields|
  {
    if fields != [] {
      PlainFields(lexer, space, fields[1..]);
      assert LexesToItself(fields[0].1);
    }
  }

  /** A legacy rendering of plain texts parses to its operation and exactly the fields' trimmed, non-empty texts if
      its start tags can be read with a supported SOAP namespace, and not at all otherwise. */
  lemma LegacyParse(cfg: Config, operation: string, fields: seq<(string, string)>, lexer: Lexer)
    requires lexer.Reads() && operation != "" && NameOf(operation) == Plain
    requires forall f <- fields :: NameOf(f.0) == Plain
    ensures var r := Parse(LegacyDocument(cfg, operation, fields, lexer));
            && (!HeadReads(cfg, lexer) ==> r.Err?)
            && (HeadReads(cfg, lexer) && AllPlain(fields) ==>
                  r == Ok(AddFields(HeadRead(cfg, operation, lexer), fields)))
  {
    hide NameOf, LexesToItself, FieldsTokens, AddFields, Enveloped;
    var soap, g2s := lexer.attribute(SoapSpace(cfg)), lexer.attribute(G2SSpace(cfg));
    if soap.Some? && g2s.Some? {
      if AllPlain(fields) {
        PlainFields(lexer, g2s.value, fields);
        LegacyTokensParse(soap.value, g2s.value, operation, fields);
      }
      var content := ReadFields(lexer, g2s.value, fields);
      if content.Some? { var _ := LegacyPrefix(soap.value, g2s.value, operation, content.value); }
    }
  }

  // ----- what content that is not plain cannot give -----

  ghost predicate AllBelow(tokens: seq<Token>, n: nat) {
    forall t <- tokens :: Below(t, n)
  }

  ghost predicate IdentityBelow(m: Message, n: nat) {
    BelowText(m.hostID, n) && BelowText(m.egmID, n) && BelowText(m.sessionID, n)
  }

  lemma {:induction false} TrimBelow(s: string, n: nat)
    requires BelowText(s, n)
    ensures BelowText(TrimSpace(s), n)
    decreases |s|
  {
    if s != "" && IsSpace(s[0]) {
      PartPlain(s, 1, |s|);
      assert s[1..|s|] == s[1..];
      TrimBelow(s[1..], n);
    } else if s != "" && IsSpace(s[|s| - 1]) {
      PartPlain(s, 0, |s| - 1);
      assert s[0..|s| - 1] == s[..|s| - 1];
      TrimBelow(s[..|s| - 1], n);
    }
  }

  lemma SliceOfSlice(s: string, i: nat, j: nat, p: nat, n: nat)
    requires i <= j <= |s| && p + n <= j - i
    ensures s[i..j][p..p + n] == s[i + p..i + p + n]
  {
    var u, v := s[i..j][p..p + n], s[i + p..i + p + n];
    assert forall k :: 0 <= k < n ==> u[k] == v[k];
  }

  lemma PartPlain(s: string, i: nat, j: nat)
    requires i <= j <= |s|
    ensures LexesToItself(s) ==> LexesToItself(s[i..j])
  {
    var m, t := "]]>", s[i..j];
    forall p: nat | p <= |t| && Occurs(t, m, p) ensures Occurs(s, m, i + p) {
      SliceOfSlice(s, i, j, p, |m|);
    }
    assert Contains(t, m) ==> Contains(s, m);
    assert forall c <- t :: c in s;
  }

  lemma {:induction false} AttrBelow(attrs: seq<Attr>, name: string, n: nat)
    requires forall a <- attrs :: BelowText(a.value, n)
    ensures BelowText(AttrValue(attrs, name), n)
    decreases |attrs|
  {
    if attrs != [] { AttrBelow(attrs[1..], name, n); }
  }

  lemma ContentBelow(m: Message, place: Place, isClass: bool, local: string, space: string, attrs: seq<Attr>, n: nat)
    requires IdentityBelow(m, n) && forall a <- attrs :: BelowText(a.value, n)
    ensures IdentityBelow(Content(m, place, isClass, local, space, attrs), n)
    ensures IdentityBelow(CopyIdentity(m, attrs), n)
  {
    AttrBelow(attrs, "hostId", n);
    AttrBelow(attrs, "egmId", n);
    AttrBelow(attrs, "sessionId", n);
    hide BelowText, AttrValue, CopyAttrs;
  }

  lemma ElementBelow(m: Message, name: Name, place: Place, local: string, space: string, attrs: seq<Attr>, n: nat)
    requires IdentityBelow(m, n) && forall a <- attrs :: BelowText(a.value, n)
    requires Element(m, name, place, local, space, attrs).Ok?
    ensures IdentityBelow(Element(m, name, place, local, space, attrs).value, n)
  {
    hide BelowText, Content, IsClassName, CopyAttrs, AttrValue;
    ContentBelow(m, place, false, local, space, attrs, n);
    ContentBelow(m, place, IsClassName(local), local, space, attrs, n);
    var root := if m.rootKind == Unknown then G2SBody else m.rootKind;
    ContentBelow(m.(rootKind := root), place, false, local, space, attrs, n);
    ContentBelow(m.(rootKind := G2SAck, operationName := "g2sAck"), place, false, local, space, attrs, n);
  }

  lemma CharsBelow(m: Message, local: string, text: string, n: nat)
    requires IdentityBelow(m, n) && BelowText(text, n)
    ensures IdentityBelow(Chars(m, local, text), n)
  {
    hide BelowText;
  }

  lemma StepBelow(st: State, t: Token, n: nat)
    requires IdentityBelow(st.msg, n) && Below(t, n) && Step(st, t).Ok?
    ensures IdentityBelow(Step(st, t).value.msg, n)
  {
    hide BelowText, Element, Chars, PlaceIn, NameOf, TrimSpace;
    match t
    case Start(local, space, attrs) =>
      var m := if st.msg.rawRoot == "" then st.msg.(rawRoot := local, rootNamespace := space) else st.msg;
      ElementBelow(m, NameOf(local), PlaceIn(m, Top(st.stack)), local, space, attrs, n);
    case CharData(raw) =>
      TrimBelow(raw, n);
      CharsBelow(st.msg, Top(st.stack), TrimSpace(raw), n);
    case _ =>
  }

  /** No identifier of a parsed message goes beyond what the tokens hold. */
  lemma {:induction false} RunBelow(st: State, tokens: seq<Token>, n: nat)
    requires IdentityBelow(st.msg, n) && AllBelow(tokens, n) && Run(st, tokens).Ok?
    ensures IdentityBelow(Run(st, tokens).value.msg, n)
    decreases |tokens|
  {
    if tokens != [] {
      StepBelow(st, tokens[0], n);
      RunBelow(Step(st, tokens[0]).value, tokens[1..], n);
    }
  }

  lemma {:induction false} ReadBelow(lexer: Lexer, space: string, fields: seq<(string, string)>, n: nat)
    requires lexer.Reads() && ReadFields(lexer, space, fields).Some?
    requires forall f <- fields :: LexesToItself(f.1) || |f.1| <= n
    ensures AllBelow(ReadFields(lexer, space, fields).value, n)
    decreases |fields|
  {
    if fields != [] {
      ReadBelow(lexer, space, fields[1..], n);
      var content := lexer.content(fields[0].1).value;
      forall t | t in content ensures Below(t, n) {
        if LexesToItself(fields[0].1) { assert t == CharData(fields[0].1); }
      }
    }
  }

  // ----- the four requests of the session engine -----

  /** The child elements every legacy request starts with. */
  function IdentityFields(cfg: Config, sessionID: string): seq<(string, string)> {
    [("hostId", cfg.hostID), ("egmId", cfg.egmID), ("sessionId", sessionID)]
  }

  datatype Operation = CommsOnLine | GetDescriptor | SetKeepAlive | KeepAlive {
    function Name(): string {
      match this
      case CommsOnLine => "commsOnLine"
      case GetDescriptor => "getDescriptor"
      case SetKeepAlive => "setKeepAlive"
      case KeepAlive => "keepAlive"
    }

    /** The operation's attributes in a schema-shaped message. */
    function Attrs(egmLocation: string, keepAliveMS: int): map<string, string> {
      match this
      case CommsOnLine => map["equipmentType" := "G2S_egm", "egmLocation" := egmLocation, "deviceReset" := "false",
                              "deviceChanged" := "false", "subscriptionLost" := "false", "metersReset" := "false"]
      case GetDescriptor => map["includeOwners" := "true", "includeConfigs" := "true", "includeGuests" := "true",
                                "includeOthers" := "true"]
      case SetKeepAlive => map["interval" := Itoa(keepAliveMS)]
      case KeepAlive => map[]
    }

    /** The operation's child elements in a legacy message. */
    function Fields(cfg: Config, sessionID: string, keepAliveMS: int): seq<(string, string)> {
      IdentityFields(cfg, sessionID) + if SetKeepAlive? then [("keepAliveIntervalMS", Itoa(keepAliveMS))] else []
    }
  }

  lemma OperationNames(op: Operation)
    ensures op.Name() != "" && NameOf(op.Name()) == Plain
  {
    forall a: string, b: string | |a| != |b| ensures !EqualFold(a, b) {
      if EqualFold(a, b) { FoldKeepsLength(a, b); }
    }
  }

  predicate Trimmed(s: string) {
    TrimSpace(s) == s
  }

  /** In schema mode every request parses back to its operation, host and machine. */
  lemma XSDRequestRoundTrip(cfg: Config, op: Operation, egmLocation: string, keepAliveMS: int, now: string)
    ensures XSDRecovered(cfg, op.Name(), op.Attrs(egmLocation, keepAliveMS), now,
              Parse(Document(XSDTokens(cfg, op.Name(), op.Attrs(egmLocation, keepAliveMS), now), true)))
  {
    OperationNames(op);
    XSDRoundTrip(cfg, op.Name(), op.Attrs(egmLocation, keepAliveMS), now);
  }

  ghost predicate LegacyRecovered(cfg: Config, operation: string, sessionID: string, r: Result<Message, ParseError>) {
    r.Ok? && r.value.rootKind == Legacy && r.value.operationName == operation
    && r.value.hostID == cfg.hostID && r.value.egmID == cfg.egmID && r.value.sessionID == sessionID
  }

  /** An identifier that survives being written without escaping and read with trimming. */
  predicate Survives(id: string) {
    Trimmed(id) && LexesToItself(id)
  }

  /** In legacy mode a request parses back to its operation, host, machine and session exactly when its start
      tags can be read with a supported SOAP namespace and its three identifiers survive: no surrounding white
      space, and nothing in them that would have needed the escaping the renderer leaves out. */
  lemma LegacyRequestRoundTrip(cfg: Config, op: Operation, sessionID: string, keepAliveMS: int, lexer: Lexer)
    requires lexer.Reads()
    ensures var r := Parse(LegacyDocument(cfg, op.Name(), op.Fields(cfg, sessionID, keepAliveMS), lexer));
            LegacyRecovered(cfg, op.Name(), sessionID, r)
            <==> HeadReads(cfg, lexer) && Survives(cfg.hostID) && Survives(cfg.egmID) && Survives(sessionID)
  {
    hide *;
    OperationNames(op);
    var more := RequestFields(cfg, op, sessionID, keepAliveMS);
    LegacyRoundTrip(cfg, op.Name(), sessionID, more, lexer);
  }

  lemma RequestFields(cfg: Config, op: Operation, sessionID: string, keepAliveMS: int) returns (more: seq<(string, string)>)
    ensures op.Fields(cfg, sessionID, keepAliveMS) == IdentityFields(cfg, sessionID) + more && IntervalOnly(more)
  {
    hide LexesToItself, Itoa;
    NumberPlain(keepAliveMS);
    more := if op.SetKeepAlive? then [("keepAliveIntervalMS", Itoa(keepAliveMS))] else [];
  }

  /** What follows the identity fields in a request: nothing, or the plain heartbeat interval. */
  ghost predicate IntervalOnly(more: seq<(string, string)>) {
    |more| <= 1 && forall f <- more :: f.0 == "keepAliveIntervalMS" && LexesToItself(f.1)
  }

  lemma LegacyRoundTrip(cfg: Config, operation: string, sessionID: string, more: seq<(string, string)>, lexer: Lexer)
    requires lexer.Reads() && operation != "" && NameOf(operation) == Plain && IntervalOnly(more)
    ensures var r := Parse(LegacyDocument(cfg, operation, IdentityFields(cfg, sessionID) + more, lexer));
            LegacyRecovered(cfg, operation, sessionID, r)
            <==> HeadReads(cfg, lexer) && Survives(cfg.hostID) && Survives(cfg.egmID) && Survives(sessionID)
  {
    hide LexesToItself, LegacyDocument, Parse, Trimmed, HeadReads, NameOf, IdentityFields, LegacyRecovered, IntervalOnly;
    if LexesToItself(cfg.hostID) && LexesToItself(cfg.egmID) && LexesToItself(sessionID) {
      PlainRequest(cfg, operation, sessionID, more, lexer);
    } else {
      UnescapedIsLost(cfg, operation, sessionID, more, lexer);
    }
  }

  lemma PlainRequest(cfg: Config, operation: string, sessionID: string, more: seq<(string, string)>, lexer: Lexer)
    requires lexer.Reads() && operation != "" && NameOf(operation) == Plain && IntervalOnly(more)
    requires LexesToItself(cfg.hostID) && LexesToItself(cfg.egmID) && LexesToItself(sessionID)
    ensures var r := Parse(LegacyDocument(cfg, operation, IdentityFields(cfg, sessionID) + more, lexer));
            LegacyRecovered(cfg, operation, sessionID, r)
            <==> HeadReads(cfg, lexer) && Trimmed(cfg.hostID) && Trimmed(cfg.egmID) && Trimmed(sessionID)
  {
    var fields := IdentityFields(cfg, sessionID) + more;
    var head := HeadRead(cfg, operation, lexer);
    PlainRequestFields(cfg, sessionID, more);
    assert Identity(head) == ("", "", "") && head.rootKind == Legacy && head.operationName == operation;
    assert forall f <- more :: f.0 == "keepAliveIntervalMS";
    hide *;
    LegacyParse(cfg, operation, fields, lexer);
    FieldsKeep(head, fields);
    AddIdentity(head, cfg, sessionID, more);
    RecoveredTrimmed(cfg, operation, sessionID, AddFields(head, fields));
    RecoveredOk(cfg, operation, sessionID, Parse(LegacyDocument(cfg, operation, fields, lexer)));
  }

  lemma PlainRequestFields(cfg: Config, sessionID: string, more: seq<(string, string)>)
    requires IntervalOnly(more) && LexesToItself(cfg.hostID) && LexesToItself(cfg.egmID) && LexesToItself(sessionID)
    ensures AllPlain(IdentityFields(cfg, sessionID) + more)
    ensures forall f <- IdentityFields(cfg, sessionID) + more :: NameOf(f.0) == Plain
    ensures |more| <= 1
  {
    hide LexesToItself, NameOf;
    FieldNames();
  }

  lemma RecoveredTrimmed(cfg: Config, operation: string, sessionID: string, m: Message)
    requires m.rootKind == Legacy && m.operationName == operation
    requires Identity(m) == (TrimSpace(cfg.hostID), TrimSpace(cfg.egmID), TrimSpace(sessionID))
    ensures LegacyRecovered(cfg, operation, sessionID, Ok(m)) <==>
      Trimmed(cfg.hostID) && Trimmed(cfg.egmID) && Trimmed(sessionID)
  {
    hide TrimSpace;
  }

  lemma RecoveredOk(cfg: Config, operation: string, sessionID: string, r: Result<Message, ParseError>)
    ensures LegacyRecovered(cfg, operation, sessionID, r) ==> r.Ok?
  {
  }

  lemma NumberPlain(n: int)
    ensures LexesToItself(Itoa(n))
  {
    ItoaPlain(n);
    var s := Itoa(n);
    assert forall c <- s :: XMLChar(c) && c !in "<&\r" && c != ']';
    var m := "]]>";
    assert m[0] == ']';
    forall p: nat | p <= |s| ensures !Occurs(s, m, p) {
      if p + |m| <= |s| { assert s[p..p + |m|][0] == s[p] && s[p] in s; }
    }
  }

  /** If an identifier needed escaping, then the longest such one is not recovered. */
  lemma UnescapedIsLost(cfg: Config, operation: string, sessionID: string, more: seq<(string, string)>, lexer: Lexer)
    requires lexer.Reads() && operation != "" && NameOf(operation) == Plain && IntervalOnly(more)
    requires !(LexesToItself(cfg.hostID) && LexesToItself(cfg.egmID) && LexesToItself(sessionID))
    ensures var r := Parse(LegacyDocument(cfg, operation, IdentityFields(cfg, sessionID) + more, lexer));
            !LegacyRecovered(cfg, operation, sessionID, r)
  {
    hide LexesToItself, LegacyDocument, Run, Parse, NameOf;
    var fields := IdentityFields(cfg, sessionID) + more;
    var doc := LegacyDocument(cfg, operation, fields, lexer);
    var n := LongestUnescaped(cfg.hostID, cfg.egmID, sessionID);
    FallbackNeverFires(doc);
    if Parse(doc).Ok? { LegacyBelow(cfg, operation, fields, lexer, n); }
  }

  /** The length of the longest identifier that is not plain; that identifier is not below it. */
  lemma LongestUnescaped(a: string, b: string, c: string) returns (n: nat)
    requires !(LexesToItself(a) && LexesToItself(b) && LexesToItself(c))
    ensures (LexesToItself(a) || |a| <= n) && (LexesToItself(b) || |b| <= n) && (LexesToItself(c) || |c| <= n)
    ensures !BelowText(a, n) || !BelowText(b, n) || !BelowText(c, n)
  {
    hide LexesToItself;
    var h := if LexesToItself(a) then 0 else |a|;
    var e := if LexesToItself(b) then 0 else |b|;
    var s := if LexesToItself(c) then 0 else |c|;
    n := if h >= e && h >= s then h else if e >= s then e else s;
    Empty();
  }

  lemma Empty()
    ensures LexesToItself("")
  {
  }

  lemma LegacyBelow(cfg: Config, operation: string, fields: seq<(string, string)>, lexer: Lexer, n: nat)
    requires lexer.Reads() && operation != "" && NameOf(operation) == Plain
    requires forall f <- fields :: LexesToItself(f.1) || |f.1| <= n
    requires var doc := LegacyDocument(cfg, operation, fields, lexer); doc.wellFormed && Run(INITIAL, doc.tokens).Ok?
    ensures IdentityBelow(Run(INITIAL, LegacyDocument(cfg, operation, fields, lexer).tokens).value.msg, n)
  {
    hide *;
    LegacyRead(cfg, operation, fields, lexer);
    var soap, g2s := lexer.attribute(SoapSpace(cfg)).value, lexer.attribute(G2SSpace(cfg)).value;
    ReadBelow(lexer, g2s, fields, n);
    EnvelopedBelow(soap, g2s, operation, ReadFields(lexer, g2s, fields).value, n);
  }

  lemma LegacyRead(cfg: Config, operation: string, fields: seq<(string, string)>, lexer: Lexer)
    requires LegacyDocument(cfg, operation, fields, lexer).wellFormed
    ensures var soap, g2s := lexer.attribute(SoapSpace(cfg)), lexer.attribute(G2SSpace(cfg));
            && soap.Some? && g2s.Some? && ReadFields(lexer, g2s.value, fields).Some?
            && LegacyDocument(cfg, operation, fields, lexer).tokens ==
                 Enveloped(soap.value, g2s.value, operation, ReadFields(lexer, g2s.value, fields).value)
  {
    hide ReadFields, Enveloped;
  }

  lemma EnvelopedBelow(soap: string, g2s: string, operation: string, inner: seq<Token>, n: nat)
    requires operation != "" && NameOf(operation) == Plain && AllBelow(inner, n)
    requires Run(INITIAL, Enveloped(soap, g2s, operation, inner)).Ok?
    ensures IdentityBelow(Run(INITIAL, Enveloped(soap, g2s, operation, inner)).value.msg, n)
  {
    hide Run, BelowText, Below, LegacyHead, NameOf, Enveloped;
    var st := LegacyPrefix(soap, g2s, operation, inner);
    NothingBelow(soap, g2s, operation, n);
    EndBelow(n);
    RunBelow(st, inner + [End, End, End], n);
  }

  lemma EndBelow(n: nat)
    ensures Below(End, n)
  {
  }

  lemma NothingBelow(soap: string, g2s: string, operation: string, n: nat)
    ensures IdentityBelow(LegacyHead(soap, g2s, operation), n)
  {
    assert LexesToItself("");
  }

  lemma FieldNames()
    ensures NameOf("hostId") == Plain && NameOf("egmId") == Plain && NameOf("sessionId") == Plain
    ensures NameOf("keepAliveIntervalMS") == Plain
  {
    forall a: string, b: string | |a| != |b| ensures !EqualFold(a, b) {
      if EqualFold(a, b) { FoldKeepsLength(a, b); }
    }
    assert MapChars("hostId", FoldChar)[0] == 'h' && MapChars("g2sAck", FoldChar)[0] == 'g';
  }

  /** The three identifiers a message has at one point. */
  function Identity(m: Message): (string, string, string) {
    (m.hostID, m.egmID, m.sessionID)
  }

  lemma FieldEffect(m: Message, text: string)
    ensures Identity(AddField(m, ("hostId", text))) == (OrElse(m.hostID, TrimSpace(text)), m.egmID, m.sessionID)
    ensures Identity(AddField(m, ("egmId", text))) == (m.hostID, OrElse(m.egmID, TrimSpace(text)), m.sessionID)
    ensures Identity(AddField(m, ("sessionId", text))) == (m.hostID, m.egmID, OrElse(m.sessionID, TrimSpace(text)))
    ensures Identity(AddField(m, ("keepAliveIntervalMS", text))) == Identity(m)
  {
  }

  lemma AddOne(m: Message, field: (string, string), rest: seq<(string, string)>)
    ensures AddFields(m, [field] + rest) == AddFields(AddField(m, field), rest)
  {
    assert ([field] + rest)[1..] == rest;
  }

  lemma AddThree(m: Message, a: (string, string), b: (string, string), c: (string, string), rest: seq<(string, string)>)
    ensures AddFields(m, [a, b, c] + rest) == AddFields(AddField(AddField(AddField(m, a), b), c), rest)
  {
    assert [a, b, c] + rest == [a] + ([b] + ([c] + rest));
    AddOne(m, a, [b] + ([c] + rest));
    AddOne(AddField(m, a), b, [c] + rest);
    AddOne(AddField(AddField(m, a), b), c, rest);
  }

  lemma AddLast(m: Message, rest: seq<(string, string)>)
    requires |rest| <= 1 && forall f <- rest :: f.0 == "keepAliveIntervalMS"
    ensures Identity(AddFields(m, rest)) == Identity(m)
  {
    if rest != [] {
      FieldEffect(m, rest[0].1);
      assert rest == [rest[0]] + [];
      AddOne(m, rest[0], []);
    }
  }

  lemma AddIdentity(m: Message, cfg: Config, sessionID: string, rest: seq<(string, string)>)
    requires Identity(m) == ("", "", "")
    requires |rest| <= 1 && forall f <- rest :: f.0 == "keepAliveIntervalMS"
    ensures Identity(AddFields(m, IdentityFields(cfg, sessionID) + rest))
         == (TrimSpace(cfg.hostID), TrimSpace(cfg.egmID), TrimSpace(sessionID))
  {
    var m1 := AddField(m, ("hostId", cfg.hostID));
    var m2 := AddField(m1, ("egmId", cfg.egmID));
    var m3 := AddField(m2, ("sessionId", sessionID));
    FieldEffect(m, cfg.hostID);
    FieldEffect(m1, cfg.egmID);
    FieldEffect(m2, sessionID);
    AddThree(m, ("hostId", cfg.hostID), ("egmId", cfg.egmID), ("sessionId", sessionID), rest);
    AddLast(m3, rest);
  }
}
