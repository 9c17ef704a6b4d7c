/** What each of the session engine's four requests says, under its literal names, once it has been rendered and parsed. */
module Requests {
  import opened Text
  import opened Envelope
  import opened Renderer

  /** Empty values are not written. */
  function Present(entries: map<string, string>): map<string, string> {
    map k | k in entries && entries[k] != "" :: entries[k]
  }

  // ----- the schema form -----

  /** A request rendered in schema mode, as the parser reads it. */
  ghost function SchemaRead(cfg: Config, op: Operation, egmLocation: string, keepAliveMS: int, now: string)
    : Result<Message, ParseError>
  {
    Parse(Document(XSDTokens(cfg, op.Name(), op.Attrs(egmLocation, keepAliveMS), now), true))
  }

  /** Everything the operation and its enclosing elements say: identities and time from the body, the rest from the
      operation itself. */
  predicate SaysInSchema(m: Message, cfg: Config, now: string, operation: string, more: map<string, string>) {
    && m.rootKind == G2SMessage && m.className == "communications" && m.operationName == operation
    && m.hostID == cfg.hostID && m.egmID == cfg.egmID && m.dateTimeSent == now && m.sessionID == ""
    && m.rawRoot == "g2sMessage" && !m.hasEnvelope
    && m.rootNamespace == (if cfg.namespace != "" then cfg.namespace
                           else "http://www.gamingstandards.com/g2s/schemas/v1.0.3")
    && m.fields == Present(map["hostId" := cfg.hostID, "egmId" := cfg.egmID, "dateTimeSent" := now] + more)
  }

  /** What each request says in schema mode. */
  lemma SchemaRequests(cfg: Config, egmLocation: string, ms: int, now: string)
    ensures var r := SchemaRead(cfg, CommsOnLine, egmLocation, ms, now);
            r.Ok? && SaysInSchema(r.value, cfg, now, "commsOnLine",
              map["equipmentType" := "G2S_egm", "egmLocation" := egmLocation, "deviceReset" := "false",
                  "deviceChanged" := "false", "subscriptionLost" := "false", "metersReset" := "false"])
    ensures var r := SchemaRead(cfg, GetDescriptor, egmLocation, ms, now);
            r.Ok? && SaysInSchema(r.value, cfg, now, "getDescriptor",
              map["includeOwners" := "true", "includeConfigs" := "true", "includeGuests" := "true", "includeOthers" := "true"])
    ensures var r := SchemaRead(cfg, SetKeepAlive, egmLocation, ms, now);
            r.Ok? && SaysInSchema(r.value, cfg, now, "setKeepAlive", map["interval" := Itoa(ms)])
    ensures var r := SchemaRead(cfg, KeepAlive, egmLocation, ms, now);
            r.Ok? && SaysInSchema(r.value, cfg, now, "keepAlive", map[])
  {
    SchemaRequest(cfg, CommsOnLine, egmLocation, ms, now);
    SchemaRequest(cfg, GetDescriptor, egmLocation, ms, now);
    SchemaRequest(cfg, SetKeepAlive, egmLocation, ms, now);
    SchemaRequest(cfg, KeepAlive, egmLocation, ms, now);
    hide SchemaRead, SaysInSchema;
  }

  lemma SchemaRequest(cfg: Config, op: Operation, egmLocation: string, ms: int, now: string)
    ensures var r := SchemaRead(cfg, op, egmLocation, ms, now);
            r.Ok? && SaysInSchema(r.value, cfg, now, op.Name(), op.Attrs(egmLocation, ms))
  {
    hide XSDTokens, Parse, Operation.Attrs, Operation.Name, Itoa, Written, Present;
    XSDRequestRoundTrip(cfg, op, egmLocation, ms, now);
    var body, attrs := BodyAttrs(cfg, now), op.Attrs(egmLocation, ms);
    AttrsApart(op, egmLocation, ms);
    BodyNames(cfg, now);
    WrittenTogether(body, attrs);
    NotWritten(attrs, "sessionId");
  }

  lemma BodyNames(cfg: Config, now: string)
    ensures var body := BodyAttrs(cfg, now);
            body.Keys == {"hostId", "egmId", "dateTimeSent"} && "" !in body
            && body == map["hostId" := cfg.hostID, "egmId" := cfg.egmID, "dateTimeSent" := now]
  {
  }

  lemma NotWritten(attrs: map<string, string>, name: string)
    requires name !in attrs
    ensures Get(Written(attrs), name) == ""
  {
  }

  /** No request repeats a name its body has, nor gives a session. */
  lemma AttrsApart(op: Operation, egmLocation: string, ms: int)
    ensures var attrs := op.Attrs(egmLocation, ms);
            "hostId" !in attrs && "egmId" !in attrs && "dateTimeSent" !in attrs && "sessionId" !in attrs && "" !in attrs
  {
  }

  lemma WrittenTogether(a: map<string, string>, b: map<string, string>)
    requires "" !in a && "" !in b && a.Keys !! b.Keys
    ensures Written(a) + Written(b) == Present(a + b)
  {
  }

  // ----- the legacy form -----

  /** A request rendered in legacy mode, as the parser reads it. */
  function LegacyReading(cfg: Config, op: Operation, sessionID: string, keepAliveMS: int, lexer: Lexer)
    : Result<Message, ParseError>
  {
    Parse(LegacyDocument(cfg, op.Name(), op.Fields(cfg, sessionID, keepAliveMS), lexer))
  }

  /** A message whose operation element holds these texts, under the namespaces of the pack or their defaults. */
  predicate SaysInLegacy(m: Message, cfg: Config, lexer: Lexer, operation: string, entries: map<string, string>) {
    && m.rootKind == Legacy && m.className == "" && m.operationName == operation && m.fields == Present(entries)
    && lexer.attribute(if cfg.soapNamespace != "" then cfg.soapNamespace
                       else "http://schemas.xmlsoap.org/soap/envelope/") == Some(m.soapNamespace)
    && lexer.attribute(if cfg.g2sNamespace != "" then cfg.g2sNamespace else "urn:g2s:lab") == Some(m.rootNamespace)
  }

  /** The three identifiers that every legacy request holds, trimmed. */
  function Identifiers(cfg: Config, sessionID: string): map<string, string> {
    map["hostId" := TrimSpace(cfg.hostID), "egmId" := TrimSpace(cfg.egmID), "sessionId" := TrimSpace(sessionID)]
  }

  /** What each request says in legacy mode, when it can be read and holds nothing that needed escaping: the three
      identifiers, and the heartbeat interval in the one request that sets it. */
  lemma LegacyRequests(cfg: Config, sessionID: string, ms: int, lexer: Lexer)
    requires lexer.Reads() && HeadReads(cfg, lexer)
    requires LexesToItself(cfg.hostID) && LexesToItself(cfg.egmID) && LexesToItself(sessionID)
    ensures var r := LegacyReading(cfg, CommsOnLine, sessionID, ms, lexer);
            r.Ok? && SaysInLegacy(r.value, cfg, lexer, "commsOnLine", Identifiers(cfg, sessionID))
    ensures var r := LegacyReading(cfg, GetDescriptor, sessionID, ms, lexer);
            r.Ok? && SaysInLegacy(r.value, cfg, lexer, "getDescriptor", Identifiers(cfg, sessionID))
    ensures var r := LegacyReading(cfg, SetKeepAlive, sessionID, ms, lexer);
            r.Ok? && SaysInLegacy(r.value, cfg, lexer, "setKeepAlive",
              Identifiers(cfg, sessionID)["keepAliveIntervalMS" := Itoa(ms)])
    ensures var r := LegacyReading(cfg, KeepAlive, sessionID, ms, lexer);
            r.Ok? && SaysInLegacy(r.value, cfg, lexer, "keepAlive", Identifiers(cfg, sessionID))
  {
    LegacyRequest(cfg, CommsOnLine, sessionID, ms, lexer);
    LegacyRequest(cfg, GetDescriptor, sessionID, ms, lexer);
    LegacyRequest(cfg, SetKeepAlive, sessionID, ms, lexer);
    LegacyRequest(cfg, KeepAlive, sessionID, ms, lexer);
    hide LegacyReading, SaysInLegacy, Identifiers, LexesToItself, HeadReads, Itoa;
  }

  /** Equal in everything but identifiers and fields. */
  predicate SameHead(m: Message, n: Message) {
    && m.rootKind == n.rootKind && m.className == n.className && m.operationName == n.operationName
    && m.rootNamespace == n.rootNamespace && m.soapNamespace == n.soapNamespace
  }

  lemma FieldAdded(m: Message, entries: map<string, string>, name: string, text: string)
    requires m.fields == Present(entries) && name !in entries
    ensures var r := AddField(m, (name, text));
            r.fields == Present(entries[name := TrimSpace(text)]) && SameHead(m, r)
  {
    hide TrimSpace;
    PresentWith(entries, name, TrimSpace(text));
    hide Present;
    assert Chars(m, name, TrimSpace(text)).fields == m.fields[name := TrimSpace(text)];
  }

  lemma PresentWith(entries: map<string, string>, name: string, value: string)
    requires name !in entries
    ensures Present(entries[name := value]) == if value == "" then Present(entries) else Present(entries)[name := value]
  {
  }

  lemma IdentifiersAdded(m: Message, cfg: Config, sessionID: string, more: seq<(string, string)>) returns (r: Message)
    requires m.fields == map[]
    ensures AddFields(m, IdentityFields(cfg, sessionID) + more) == AddFields(r, more)
    ensures r.fields == Present(Identifiers(cfg, sessionID)) && SameHead(m, r)
  {
    hide AddField, AddFields, TrimSpace;
    var m1 := AddField(m, ("hostId", cfg.hostID));
    var m2 := AddField(m1, ("egmId", cfg.egmID));
    r := AddField(m2, ("sessionId", sessionID));
    FieldAdded(m, map[], "hostId", cfg.hostID);
    FieldAdded(m1, map["hostId" := TrimSpace(cfg.hostID)], "egmId", cfg.egmID);
    FieldAdded(m2, map["hostId" := TrimSpace(cfg.hostID), "egmId" := TrimSpace(cfg.egmID)], "sessionId", sessionID);
    hide Present;
    AddThree(m, ("hostId", cfg.hostID), ("egmId", cfg.egmID), ("sessionId", sessionID), more);
  }

  lemma NumberTrimmed(n: int)
    ensures TrimSpace(Itoa(n)) == Itoa(n)
  {
    ItoaPlain(n);
    var s := Itoa(n);
    assert s[0] in s && s[|s| - 1] in s;
  }

  lemma IntervalAdded(m: Message, cfg: Config, sessionID: string, ms: int)
    requires m.fields == Present(Identifiers(cfg, sessionID))
    ensures var r := AddFields(m, [("keepAliveIntervalMS", Itoa(ms))]);
            r.fields == Present(Identifiers(cfg, sessionID)["keepAliveIntervalMS" := Itoa(ms)]) && SameHead(m, r)
  {
    NumberTrimmed(ms);
    assert "keepAliveIntervalMS" !in Identifiers(cfg, sessionID);
    hide Itoa, TrimSpace, Identifiers, AddField, Present;
    FieldAdded(m, Identifiers(cfg, sessionID), "keepAliveIntervalMS", Itoa(ms));
    assert [("keepAliveIntervalMS", Itoa(ms))] == [("keepAliveIntervalMS", Itoa(ms))] + [];
    AddOne(m, ("keepAliveIntervalMS", Itoa(ms)), []);
  }

  lemma LegacyRequest(cfg: Config, op: Operation, sessionID: string, ms: int, lexer: Lexer)
    requires lexer.Reads() && HeadReads(cfg, lexer)
    requires LexesToItself(cfg.hostID) && LexesToItself(cfg.egmID) && LexesToItself(sessionID)
    ensures var r := LegacyReading(cfg, op, sessionID, ms, lexer);
            r.Ok? && SaysInLegacy(r.value, cfg, lexer, op.Name(),
              if op == SetKeepAlive then Identifiers(cfg, sessionID)["keepAliveIntervalMS" := Itoa(ms)]
              else Identifiers(cfg, sessionID))
  {
    hide Operation.Name, LexesToItself, Itoa, Parse, LegacyDocument, TrimSpace, Present, IdentityFields, Identifiers, NameOf;
    hide Lexer.Reads, AddFields, SameHead, SaysInLegacy, HeadReads;
    OperationNames(op);
    NumberPlain(ms);
    var more := if op == SetKeepAlive then [("keepAliveIntervalMS", Itoa(ms))] else [];
    PlainRequestFields(cfg, sessionID, more);
    LegacyParse(cfg, op.Name(), IdentityFields(cfg, sessionID) + more, lexer);
    var head := HeadRead(cfg, op.Name(), lexer);
    var m := IdentifiersAdded(head, cfg, sessionID, more);
    var read := AddFields(m, more);
    var entries := Identifiers(cfg, sessionID);
    if op == SetKeepAlive {
      IntervalAdded(m, cfg, sessionID, ms);
      entries := entries["keepAliveIntervalMS" := Itoa(ms)];
    } else {
      AddNone(m);
    }
    HeadSays(cfg, op, lexer, m, read, entries);
  }

  lemma AddNone(m: Message)
    ensures AddFields(m, []) == m && SameHead(m, m)
  {
  }

  lemma HeadSays(cfg: Config, op: Operation, lexer: Lexer, m: Message, read: Message, entries: map<string, string>)
    requires HeadReads(cfg, lexer) && SameHead(HeadRead(cfg, op.Name(), lexer), m) && SameHead(m, read)
    requires read.fields == Present(entries)
    ensures SaysInLegacy(read, cfg, lexer, op.Name(), entries)
  {
    hide Operation.Name, Present, SoapSupported;
  }
}
