/** Payload files on disk: the names they are written under, what can be read back from a name,
    and the pairing of the latest request with a response. */
module Evidence {
  import opened Text

  // ----- names -----

  predicate IsAlnum(c: char) {
    'a' <= c <= 'z' || 'A' <= c <= 'Z' || '0' <= c <= '9'
  }

  function Clean(s: string): (t: string)
    ensures |t| == |s| && forall i :: 0 <= i < |s| ==> t[i] == if IsAlnum(s[i]) then s[i] else '_'
  {
    if s == "" then "" else [if IsAlnum(s[0]) then s[0] else '_'] + Clean(s[1..])
  }

  function Sanitize(op: string): string {
    if op == "" then "unknown" else Clean(op)
  }

  method SanitizeFilePart(s: string) returns (out: string)
    ensures out == Sanitize(s)
    ensures s == "" ==> out == "unknown"
    ensures s != "" ==> |out| == |s| && forall i :: 0 <= i < |s| ==>
      out[i] == if 'a' <= s[i] <= 'z' || 'A' <= s[i] <= 'Z' || '0' <= s[i] <= '9' then s[i] else '_'
  {
    if s == "" { return "unknown"; }
    out := "";
    for i := 0 to |s|
      invariant |out| == i
      invariant forall k :: 0 <= k < i ==> out[k] == if IsAlnum(s[k]) then s[k] else '_'
    {
      if IsAlnum(s[i]) { out := out + [s[i]]; } else { out := out + ['_']; }
    }
    assert out == Clean(s);
  }

  predicate Alnum(s: string) {
    s != "" && forall i :: 0 <= i < |s| ==> IsAlnum(s[i])
  }

  /** Sanitized names are non-empty; sanitizing again changes nothing; purely alphanumeric names stay. */
  lemma SanitizeSettles(op: string)
    ensures Sanitize(op) != "" && Sanitize(Sanitize(op)) == Sanitize(op)
    ensures Alnum(op) ==> Sanitize(op) == op
  {
    assert forall i :: 0 <= i < |"unknown"| ==> IsAlnum("unknown"[i]);
    assert Clean("unknown") == "unknown";
    assert Clean(Clean(op)) == Clean(op);
  }

  const XML := ".xml"

  function Marker(direction: string): string {
    "_" + direction + "_"
  }

  /** The name WritePayload builds. */
  function PayloadName(stamp: string, direction: string, op: string): string {
    stamp + Marker(direction) + Sanitize(op) + XML
  }

  /** strings.Index from a position on. */
  function Index(s: string, m: string, from: nat): (r: int)
    requires from <= |s|
    ensures r == -1 || (r >= from && Occurs(s, m, r))
    ensures forall p :: from <= p && (r == -1 || p < r) ==> !Occurs(s, m, p)
    decreases |s| - from
  {
    if Occurs(s, m, from) then from else if from == |s| then -1 else Index(s, m, from + 1)
  }

  function TrimSuffix(s: string, t: string): string {
    if HasSuffix(s, t) then s[..|s| - |t|] else s
  }

  function MessageTypeFromPayloadName(name: string, direction: string): string {
    var i := Index(name, Marker(direction), 0);
    if i < 0 then "" else TrimSuffix(name[i + |Marker(direction)|..], XML)
  }

  predicate NoUnderscore(s: string) {
    '_' !in s
  }

  lemma IndexOfMarker(stamp: string, m: string, rest: string)
    requires NoUnderscore(stamp) && m != "" && m[0] == '_'
    ensures Index(stamp + m + rest, m, 0) == |stamp|
  {
    var name := stamp + m + rest;
    assert Occurs(name, m, |stamp|);
    var i := Index(name, m, 0);
    assert forall k :: 0 <= k < |stamp| ==> name[k] == stamp[k] && name[k] != '_';
    assert name[i] == m[0];
  }

  lemma TrimXML(s: string)
    ensures TrimSuffix(s + XML, XML) == s
  {
    assert (s + XML)[|s|..] == XML && (s + XML)[..|s|] == s;
  }

  /** Reading the type back from a written name gives the sanitized operation, whatever the direction
      and however many underscores the operation holds. */
  lemma NameRoundTrip(stamp: string, direction: string, op: string)
    requires NoUnderscore(stamp)
    ensures MessageTypeFromPayloadName(PayloadName(stamp, direction, op), direction) == Sanitize(op)
  {
    var name, m := PayloadName(stamp, direction, op), Marker(direction);
    var rest := Sanitize(op) + XML;
    assert name == stamp + m + rest;
    IndexOfMarker(stamp, m, rest);
    assert name[|stamp| + |m|..] == rest;
    TrimXML(Sanitize(op));
  }

  // ----- the direction filter -----

  /** A marker can only start at an underscore. */
  lemma OccursPastHead(x: string, y: string, m: string, p: nat)
    requires NoUnderscore(x) && m != "" && m[0] == '_' && Occurs(x + "_" + y, m, p)
    ensures p >= |x| && Occurs("_" + y, m, p - |x|)
  {
    var s := x + "_" + y;
    assert s[p] == m[0];
    assert forall k :: 0 <= k < |x| ==> s[k] == x[k] && s[k] != '_';
    assert s[|x|..] == "_" + y;
    assert s[p..p + |m|] == ("_" + y)[p - |x|..p - |x| + |m|];
  }

  lemma OccursPastUnderscore(y: string, m: string, p: nat)
    requires p > 0 && Occurs("_" + y, m, p)
    ensures Occurs(y, m, p - 1)
  {
    assert ("_" + y)[p..p + |m|] == y[p - 1..p - 1 + |m|];
  }

  /** A marker of two words at the front: the words are the first two of the text. */
  lemma MarkerAtFront(c: string, d: string, x: string, y: string)
    requires NoUnderscore(c) && NoUnderscore(x) && Occurs("_" + (x + "_" + y), Marker(c + "_" + d), 0)
    ensures c == x && Occurs(y, d + "_", 0)
  {
    var m, s := Marker(c + "_" + d), "_" + (x + "_" + y);
    var rest := s[|m|..];
    assert s == m + rest;
    assert s[1..] == x + ['_'] + y;
    assert s[1..] == c + ['_'] + (d + "_" + rest);
    SplitAtFirst(c, d + "_" + rest, x, y, '_');
    assert (d + "_" + rest)[..|d| + 1] == d + "_";
  }

  lemma WordAtFront(d: string, x: string, y: string)
    requires NoUnderscore(d) && NoUnderscore(x) && Occurs(x + "_" + y, d + "_", 0)
    ensures d == x
  {
    var s := x + "_" + y;
    var rest := s[|d| + 1..];
    assert s == (d + "_") + rest;
    assert s == x + ['_'] + y && s == d + ['_'] + rest;
    SplitAtFirst(d, rest, x, y, '_');
  }

  /** An occurrence that ends in an underscore does not reach into the suffix. */
  lemma OccursBeforeSuffix(t: string, m: string, p: nat)
    requires m != "" && m[|m| - 1] == '_' && Occurs(t + XML, m, p)
    ensures Contains(t, m)
  {
    var s := t + XML;
    assert s[p..p + |m|][|m| - 1] == s[p + |m| - 1] == '_';
    assert forall k :: |t| <= k < |s| ==> s[k] == XML[k - |t|] && s[k] != '_';
    assert t[p..p + |m|] == s[p..p + |m|];
    assert Occurs(t, m, p);
  }

  /** A direction of two underscore-free words, such as outbound_request. */
  datatype Direction = Direction(first: string, second: string) {
    predicate Words() { NoUnderscore(first) && NoUnderscore(second) }

    function Text(): string { first + "_" + second }
  }

  /** The filter on a direction matches a written name exactly when that direction was written, or when the
      sanitized operation itself spells the marker out. */
  lemma DirectionFilter(stamp: string, d: Direction, op: string, w: Direction)
    requires NoUnderscore(stamp) && d.Words() && w.Words() && w.first != d.second
    ensures Contains(PayloadName(stamp, d.Text(), op), Marker(w.Text())) <==>
      w == d || Contains("_" + Sanitize(op), Marker(w.Text()))
  {
    var name, m := PayloadName(stamp, d.Text(), op), Marker(w.Text());
    if Contains(name, m) {
      var p: nat :| p <= |name| && Occurs(name, m, p);
      FilterOnlyIf(stamp, d, op, w, p);
    }
    if w == d {
      assert name == stamp + m + (Sanitize(op) + XML);
      assert Occurs(name, m, |stamp|);
    }
    if Contains("_" + Sanitize(op), m) {
      var q: nat :| q <= |"_" + Sanitize(op)| && Occurs("_" + Sanitize(op), m, q);
      FilterIf(stamp, d, op, w, q);
    }
  }

  lemma Regroup(stamp: string, u: string, first: string, second: string, op: string, x: string)
    ensures stamp + (u + (first + u + second) + u) + op + x == stamp + u + (first + u + (second + u + (op + x)))
  {
  }

  /** The written name, word by word. */
  lemma NameInWords(stamp: string, d: Direction, op: string)
    ensures PayloadName(stamp, d.Text(), op) == stamp + "_" + (d.first + "_" + (d.second + "_" + (Sanitize(op) + XML)))
  {
    Regroup(stamp, "_", d.first, d.second, Sanitize(op), XML);
  }

  /** An occurrence from the second word on lies in the operation, unless it starts with that word. */
  lemma PastSecond(b: string, san: string, w: Direction, p: nat)
    requires NoUnderscore(b) && w.Words() && w.first != b
    requires Occurs("_" + (b + "_" + (san + XML)), Marker(w.Text()), p)
    ensures Contains("_" + san, Marker(w.Text()))
  {
    var m := Marker(w.Text());
    if p == 0 {
      MarkerAtFront(w.first, w.second, b, san + XML);
      assert false;
    }
    OccursPastUnderscore(b + "_" + (san + XML), m, p);
    OccursPastHead(b, san + XML, m, p - 1);
    assert "_" + (san + XML) == ("_" + san) + XML;
    OccursBeforeSuffix("_" + san, m, p - 1 - |b|);
  }

  lemma PastFirst(d: Direction, san: string, w: Direction, p: nat)
    requires d.Words() && w.Words() && w.first != d.second
    requires Occurs("_" + (d.first + "_" + (d.second + "_" + (san + XML))), Marker(w.Text()), p)
    ensures w == d || Contains("_" + san, Marker(w.Text()))
  {
    var second := d.second + "_" + (san + XML);
    if p == 0 {
      MarkerAtFront(w.first, w.second, d.first, second);
      WordAtFront(w.second, d.second, san + XML);
    } else {
      OccursPastUnderscore(d.first + "_" + second, Marker(w.Text()), p);
      OccursPastHead(d.first, second, Marker(w.Text()), p - 1);
      PastSecond(d.second, san, w, p - 1 - |d.first|);
    }
  }

  lemma FilterOnlyIf(stamp: string, d: Direction, op: string, w: Direction, p: nat)
    requires NoUnderscore(stamp) && d.Words() && w.Words() && w.first != d.second
    requires Occurs(PayloadName(stamp, d.Text(), op), Marker(w.Text()), p)
    ensures w == d || Contains("_" + Sanitize(op), Marker(w.Text()))
  {
    NameInWords(stamp, d, op);
    OccursPastHead(stamp, d.first + "_" + (d.second + "_" + (Sanitize(op) + XML)), Marker(w.Text()), p);
    PastFirst(d, Sanitize(op), w, p - |stamp|);
  }

  lemma FilterIf(stamp: string, d: Direction, op: string, w: Direction, q: nat)
    requires Occurs("_" + Sanitize(op), Marker(w.Text()), q)
    ensures Contains(PayloadName(stamp, d.Text(), op), Marker(w.Text()))
  {
    var m, t := Marker(w.Text()), "_" + Sanitize(op);
    var head := stamp + "_" + d.Text();
    var name := PayloadName(stamp, d.Text(), op);
    assert name == head + t + XML;
    var p := |head| + q;
    assert name[p..p + |m|] == t[q..q + |m|];
    assert Occurs(name, m, p);
  }

  /** For purely alphanumeric operations the filter is exact. */
  lemma DirectionFilterExact(stamp: string, d: Direction, op: string, w: Direction)
    requires NoUnderscore(stamp) && d.Words() && w.Words() && w.first != d.second && Alnum(op)
    ensures Contains(PayloadName(stamp, d.Text(), op), Marker(w.Text())) <==> w == d
  {
    DirectionFilter(stamp, d, op, w);
    SanitizeSettles(op);
    NoMarkerInside(op, Marker(w.Text()));
  }

  lemma NoMarkerInside(op: string, m: string)
    requires NoUnderscore(op) && |m| >= 2 && m[|m| - 1] == '_'
    ensures !Contains("_" + op, m)
  {
    var t := "_" + op;
    forall q: nat | q <= |t| ensures !Occurs(t, m, q) {
      if q + |m| <= |t| {
        assert t[q..q + |m|][|m| - 1] == op[q + |m| - 2];
      }
    }
  }

  /** For others it is not: every direction passes for every other one under some operation name. */
  lemma DirectionFilterFooled(stamp: string, d: Direction, w: Direction)
    requires Alnum(w.first) && Alnum(w.second)
    ensures Contains(PayloadName(stamp, d.Text(), w.Text() + "_"), Marker(w.Text()))
  {
    var op := w.Text() + "_";
    assert Clean(op) == op;
    assert Occurs("_" + Sanitize(op), Marker(w.Text()), 0);
    FilterIf(stamp, d, op, w, 0);
  }

  // ----- the latest payload of a listing -----

  /** A directory entry; a modification time of zero is Go's zero time. */
  datatype Entry = Entry(name: string, isDir: bool, modified: int)

  /** What is reported of a payload file; NoPayload is the record with an empty path. */
  datatype Payload = NoPayload | Payload(name: string, direction: string, messageType: string, modified: int) {
    function Type(): string { if Payload? then messageType else "" }
  }

  predicate Matches(e: Entry, direction: string, messageType: string) {
    && !e.isDir && Contains(e.name, Marker(direction)) && HasSuffix(e.name, XML)
    && (messageType == "" || MessageTypeFromPayloadName(e.name, direction) == messageType)
  }

  function PayloadOf(e: Entry, direction: string): Payload {
    Payload(e.name, direction, MessageTypeFromPayloadName(e.name, direction), e.modified)
  }

  ghost predicate AnyMatch(listing: seq<Entry>, direction: string, messageType: string) {
    exists e <- listing :: Matches(e, direction, messageType)
  }

  /** The payload is a matching file of the listing, and no matching file is newer. */
  ghost predicate IsLatest(listing: seq<Entry>, direction: string, messageType: string, p: Payload) {
    && (exists e <- listing :: Matches(e, direction, messageType) && p == PayloadOf(e, direction))
    && (forall e <- listing :: Matches(e, direction, messageType) ==> p.Payload? && e.modified <= p.modified)
  }

  ghost predicate Finds(listing: seq<Entry>, direction: string, messageType: string, p: Payload) {
    if AnyMatch(listing, direction, messageType) then IsLatest(listing, direction, messageType, p) else p == NoPayload
  }

  predicate NewestFirst(files: seq<Entry>) {
    forall i, j :: 0 <= i < j < |files| ==> files[i].modified >= files[j].modified
  }

  /** sort.Slice: newest first, the order among equally old files being left open. */
  method SortNewestFirst(files: seq<Entry>) returns (sorted: seq<Entry>)
    ensures NewestFirst(sorted) && forall e :: e in sorted <==> e in files
    ensures |sorted| == |files|
  {
    sorted := [];
    for i := 0 to |files|
      invariant NewestFirst(sorted) && |sorted| == i
      invariant forall e :: e in sorted <==> e in files[..i]
    {
      var k := 0;
      while k < |sorted| && sorted[k].modified >= files[i].modified
        invariant k <= |sorted|
        invariant forall j :: 0 <= j < k ==> sorted[j].modified >= files[i].modified
      {
        k := k + 1;
      }
      ghost var before := sorted;
      sorted := sorted[..k] + [files[i]] + sorted[k..];
      InsertKeepsOrder(before, k, files[i]);
      assert before == before[..k] + before[k..];
      assert files[..i + 1] == files[..i] + [files[i]];
    }
    assert files[..|files|] == files;
  }

  lemma InsertKeepsOrder(files: seq<Entry>, k: nat, e: Entry)
    requires NewestFirst(files) && k <= |files|
    requires forall j :: 0 <= j < k ==> files[j].modified >= e.modified
    requires k < |files| ==> files[k].modified < e.modified
    ensures NewestFirst(files[..k] + [e] + files[k..])
  {
  }

  /** latestPayloadForMessageType. A directory that is not set, or cannot be read, is None. */
  method LatestPayloadForMessageType(dir: Option<seq<Entry>>, direction: string, messageType: string)
    returns (p: Payload)
    ensures Finds(Listing(dir), direction, messageType, p)
    ensures p.Payload? ==>
      && (exists e <- Listing(dir) :: e == Entry(p.name, false, p.modified)) && p.direction == direction
      && Contains(p.name, "_" + direction + "_") && HasSuffix(p.name, ".xml")
      && p.messageType == MessageTypeFromPayloadName(p.name, direction) && (messageType == "" || p.messageType == messageType)
    ensures forall e <- Listing(dir) ::
      !e.isDir && Contains(e.name, "_" + direction + "_") && HasSuffix(e.name, ".xml")
      && (messageType == "" || MessageTypeFromPayloadName(e.name, direction) == messageType) ==>
        p.Payload? && e.modified <= p.modified
  {
    if dir.None? { return NoPayload; }
    var entries := dir.value;
    var files := [];
    for i := 0 to |entries|
      invariant forall e :: e in files <==> e in entries[..i] && Matches(e, direction, messageType)
    {
      assert entries[..i + 1] == entries[..i] + [entries[i]];
      if entries[i].isDir { continue; }
      if !Contains(entries[i].name, Marker(direction)) || !HasSuffix(entries[i].name, XML) { continue; }
      if messageType != "" && MessageTypeFromPayloadName(entries[i].name, direction) != messageType { continue; }
      files := files + [entries[i]];
    }
    assert entries[..|entries|] == entries;
    files := SortNewestFirst(files);
    if |files| == 0 { return NoPayload; }
    p := PayloadOf(files[0], direction);
    assert files[0] in files;
    assert files[0] == Entry(p.name, false, p.modified);
  }

  function Listing(dir: Option<seq<Entry>>): seq<Entry> {
    if dir.Some? then dir.value else []
  }

  // ----- pairing -----

  datatype Strategy = MatchedOutbound | MatchedInbound | Fallback

  datatype Warning = Stale | Mismatch

  /** The warnings are listed in the order their texts are joined. */
  datatype Pairing = Pairing(
    strategy: Strategy, requestType: string, responseType: string, matched: bool, older: bool, deltaMS: int,
    warnings: seq<Warning>)

  const OUTBOUND := Direction("outbound", "response")
  const INBOUND := Direction("inbound", "response")
  const OUTBOUND_RESPONSE := OUTBOUND.Text()
  const INBOUND_RESPONSE := INBOUND.Text()

  predicate Timed(request: Payload, response: Payload) {
    request.Payload? && response.Payload? && request.modified != 0 && response.modified != 0
  }

  /** Duration.Milliseconds truncates towards zero; times are nanoseconds. */
  function Millis(d: int): int {
    if d >= 0 then d / 1_000_000 else -((-d) / 1_000_000)
  }

  /** Less than a millisecond is lost, towards zero. */
  lemma MillisTruncates(d: int)
    ensures d >= 0 ==> 0 <= d - Millis(d) * 1_000_000 < 1_000_000
    ensures d < 0 ==> 0 <= Millis(d) * 1_000_000 - d < 1_000_000
  {
  }

  function AnnotatePairingAge(pairing: Pairing, request: Payload, response: Payload): Pairing {
    if !Timed(request, response) then pairing
    else
      var delta := response.modified - request.modified;
      var p := pairing.(deltaMS := Millis(delta));
      if delta < 0 then p.(older := true, warnings := p.warnings + [Stale]) else p
  }

  /** Which file is chosen, by which strategy: exact matches first, outbound before inbound. */
  ghost predicate Chosen(listing: seq<Entry>, request: Payload, response: Payload, strategy: Strategy) {
    var t := request.Type();
    if t != "" && AnyMatch(listing, OUTBOUND_RESPONSE, t) then
      strategy == MatchedOutbound && IsLatest(listing, OUTBOUND_RESPONSE, t, response)
    else if t != "" && AnyMatch(listing, INBOUND_RESPONSE, t) then
      strategy == MatchedInbound && IsLatest(listing, INBOUND_RESPONSE, t, response)
    else
      && strategy == Fallback
      && if AnyMatch(listing, OUTBOUND_RESPONSE, "") then IsLatest(listing, OUTBOUND_RESPONSE, "", response)
         else Finds(listing, INBOUND_RESPONSE, "", response)
  }

  lemma LatestHasItsType(listing: seq<Entry>, direction: string, p: Payload)
    requires IsLatest(listing, direction, "", p)
    ensures p.Payload? && AnyMatch(listing, direction, p.Type())
  {
    var e :| e in listing && Matches(e, direction, "") && p == PayloadOf(e, direction);
    assert Matches(e, direction, p.Type());
  }

  /** A chosen response has the request's type exactly when a matching strategy chose it. */
  lemma FallbackNeverMatches(listing: seq<Entry>, request: Payload, response: Payload, strategy: Strategy)
    requires Chosen(listing, request, response, strategy)
    ensures request.Type() != "" && request.Type() == response.Type() <==> strategy != Fallback
    ensures strategy != Fallback ==> response.Payload?
  {
    if strategy == Fallback {
      if AnyMatch(listing, OUTBOUND_RESPONSE, "") {
        LatestHasItsType(listing, OUTBOUND_RESPONSE, response);
      } else if AnyMatch(listing, INBOUND_RESPONSE, "") {
        LatestHasItsType(listing, INBOUND_RESPONSE, response);
      }
    }
  }

  /** The lookups of pairedLatestResponse. */
  method ChooseResponse(dir: Option<seq<Entry>>, request: Payload) returns (response: Payload, strategy: Strategy)
    ensures Chosen(Listing(dir), request, response, strategy)
  {
    if request.Type() != "" {
      response := LatestPayloadForMessageType(dir, OUTBOUND_RESPONSE, request.Type());
      if response.Payload? { return response, MatchedOutbound; }
      response := LatestPayloadForMessageType(dir, INBOUND_RESPONSE, request.Type());
      if response.Payload? { return response, MatchedInbound; }
    }
    strategy := Fallback;
    response := LatestPayloadForMessageType(dir, OUTBOUND_RESPONSE, "");
    if response.NoPayload? {
      response := LatestPayloadForMessageType(dir, INBOUND_RESPONSE, "");
    }
  }

  method PairedLatestResponse(dir: Option<seq<Entry>>, request: Payload) returns (response: Payload, pairing: Pairing)
    ensures Chosen(Listing(dir), request, response, pairing.strategy)
    ensures pairing.requestType == request.Type() && pairing.responseType == response.Type()
    ensures pairing.matched <==> pairing.strategy != Fallback
    ensures pairing.older <==> Timed(request, response) && response.modified < request.modified
    ensures pairing.deltaMS == if Timed(request, response) then Millis(response.modified - request.modified) else 0
    ensures pairing.warnings ==
      (if pairing.older then [Stale] else [])
      + (if pairing.strategy == Fallback && request.Payload? && response.Payload? then [Mismatch] else [])
  {
    var strategy;
    response, strategy := ChooseResponse(dir, request);
    FallbackNeverMatches(Listing(dir), request, response, strategy);
    var matched := strategy != Fallback || (request.Type() != "" && request.Type() == response.Type());
    pairing := Pairing(strategy, request.Type(), response.Type(), matched, false, 0, []);
    pairing := AnnotatePairingAge(pairing, request, response);
    if strategy == Fallback && request.Payload? && response.Payload? && !pairing.matched {
      pairing := pairing.(warnings := pairing.warnings + [Mismatch]);
    }
  }

  // ----- codec and pairing together -----

  /** A payload as WritePayload was asked to write it. */
  datatype Written = Written(stamp: string, direction: Direction, op: string) {
    predicate Plain() { NoUnderscore(stamp) && direction.Words() && Alnum(op) }

    function Name(): string { PayloadName(stamp, direction.Text(), op) }
  }

  /** For plain writes, the lookup sees exactly what was written. */
  lemma WrittenMatches(e: Entry, written: Written, w: Direction, t: string)
    requires written.Plain() && e.name == written.Name() && !e.isDir
    requires w.Words() && w.first != written.direction.second
    ensures Matches(e, w.Text(), t) <==> w == written.direction && (t == "" || t == written.op)
    ensures w == written.direction ==> PayloadOf(e, w.Text()).Type() == written.op
  {
    DirectionFilterExact(written.stamp, written.direction, written.op, w);
    NameRoundTrip(written.stamp, written.direction.Text(), written.op);
    SanitizeSettles(written.op);
    var head := written.stamp + Marker(written.direction.Text()) + Sanitize(written.op);
    assert e.name == head + XML;
  }

  const OUTBOUND_REQUEST := Direction("outbound", "request")

  /** The second word of every direction the program writes. */
  const KINDS := ["request", "response"]

  /** A listing of files plainly written, one write per file. */
  ghost predicate WrittenAs(listing: seq<Entry>, log: seq<Written>) {
    && |log| == |listing|
    && forall i :: 0 <= i < |log| ==>
         (log[i].Plain() && log[i].direction.second in KINDS && listing[i].name == log[i].Name() && !listing[i].isDir)
  }

  /** Something was written in this direction under this operation. */
  ghost predicate WroteOp(log: seq<Written>, direction: Direction, op: string) {
    exists w <- log :: w.direction == direction && w.op == op
  }

  /** The directions looked up, none of which starts like another ends. */
  lemma LookedUp(w: Direction)
    requires w == OUTBOUND || w == INBOUND || w == OUTBOUND_REQUEST
    ensures w.Words() && w.first !in KINDS
  {
    assert w.first[0] == 'o' || w.first[0] == 'i';
    assert KINDS[0][0] == 'r' && KINDS[1][0] == 'r';
  }

  lemma RequestWritten(listing: seq<Entry>, log: seq<Written>, request: Payload)
    requires WrittenAs(listing, log)
    requires IsLatest(listing, OUTBOUND_REQUEST.Text(), "", request)
    ensures request.Type() != "" && WroteOp(log, OUTBOUND_REQUEST, request.Type())
  {
    var e :| e in listing && Matches(e, OUTBOUND_REQUEST.Text(), "") && request == PayloadOf(e, OUTBOUND_REQUEST.Text());
    var i :| 0 <= i < |listing| && listing[i] == e;
    LookedUp(OUTBOUND_REQUEST);
    WrittenMatches(e, log[i], OUTBOUND_REQUEST, "");
    assert log[i] in log;
  }

  /** A lookup by type finds something exactly when such a file was written. */
  lemma AnyWritten(listing: seq<Entry>, log: seq<Written>, w: Direction, t: string)
    requires WrittenAs(listing, log) && t != ""
    requires w == OUTBOUND || w == INBOUND || w == OUTBOUND_REQUEST
    ensures AnyMatch(listing, w.Text(), t) <==> WroteOp(log, w, t)
  {
    LookedUp(w);
    forall i | 0 <= i < |log|
      ensures Matches(listing[i], w.Text(), t) <==> log[i].direction == w && log[i].op == t
    {
      WrittenMatches(listing[i], log[i], w, t);
    }
    if AnyMatch(listing, w.Text(), t) {
      var e :| e in listing && Matches(e, w.Text(), t);
      var i :| 0 <= i < |listing| && listing[i] == e;
      assert log[i] in log;
    }
    if WroteOp(log, w, t) {
      var x :| x in log && x.direction == w && x.op == t;
      var i :| 0 <= i < |log| && log[i] == x;
      assert listing[i] in listing;
    }
  }

  /** Among plainly written files the latest request is matched exactly when some response was written under
      the request's own operation, and by an outbound one exactly when there is an outbound one. */
  lemma PlainPairing(listing: seq<Entry>, log: seq<Written>, request: Payload, response: Payload, strategy: Strategy)
    requires WrittenAs(listing, log)
    requires IsLatest(listing, OUTBOUND_REQUEST.Text(), "", request)
    requires Chosen(listing, request, response, strategy)
    ensures strategy == MatchedOutbound <==> WroteOp(log, OUTBOUND, request.Type())
    ensures strategy == MatchedInbound <==> !WroteOp(log, OUTBOUND, request.Type()) && WroteOp(log, INBOUND, request.Type())
  {
    RequestWritten(listing, log, request);
    AnyWritten(listing, log, OUTBOUND, request.Type());
    AnyWritten(listing, log, INBOUND, request.Type());
  }

  /** Something was written in this direction. */
  ghost predicate WroteTo(log: seq<Written>, direction: Direction) {
    exists w <- log :: w.direction == direction
  }

  lemma AnyWrittenTo(listing: seq<Entry>, log: seq<Written>, w: Direction)
    requires WrittenAs(listing, log) && (w == OUTBOUND || w == INBOUND)
    ensures AnyMatch(listing, w.Text(), "") <==> WroteTo(log, w)
  {
    LookedUp(w);
    forall i | 0 <= i < |log| ensures Matches(listing[i], w.Text(), "") <==> log[i].direction == w {
      WrittenMatches(listing[i], log[i], w, "");
    }
    if AnyMatch(listing, w.Text(), "") {
      var e :| e in listing && Matches(e, w.Text(), "");
      var i :| 0 <= i < |listing| && listing[i] == e;
      assert log[i] in log;
    }
    if WroteTo(log, w) {
      var x :| x in log && x.direction == w;
      var i :| 0 <= i < |log| && log[i] == x;
      assert listing[i] in listing;
    }
  }

  /** The response is the newest file written in its direction, and under its operation if that was asked for. */
  ghost predicate NewestWritten(listing: seq<Entry>, log: seq<Written>, w: Direction, t: string, p: Payload)
    requires |log| == |listing|
  {
    && p.Payload? && p.direction == w.Text() && (t == "" || p.messageType == t)
    && (exists i :: 0 <= i < |log| && log[i].direction == w && listing[i].name == p.name && listing[i].modified == p.modified
                    && log[i].op == p.messageType)
    && (forall i :: 0 <= i < |log| && log[i].direction == w && (t == "" || log[i].op == t) ==>
          listing[i].modified <= p.modified)
  }

  lemma LatestIsNewest(listing: seq<Entry>, log: seq<Written>, w: Direction, t: string, p: Payload)
    requires WrittenAs(listing, log) && (w == OUTBOUND || w == INBOUND) && IsLatest(listing, w.Text(), t, p)
    ensures NewestWritten(listing, log, w, t, p)
  {
    LookedUp(w);
    forall i | 0 <= i < |log|
      ensures Matches(listing[i], w.Text(), t) <==> log[i].direction == w && (t == "" || log[i].op == t)
      ensures log[i].direction == w ==> PayloadOf(listing[i], w.Text()).Type() == log[i].op
      ensures listing[i] in listing
    {
      WrittenMatches(listing[i], log[i], w, t);
    }
    hide Matches;
    var e :| e in listing && Matches(e, w.Text(), t) && p == PayloadOf(e, w.Text());
    var i :| 0 <= i < |listing| && listing[i] == e;
    assert log[i].direction == w;
  }

  /** Among plainly written files the response is the newest one under the request's own operation, outbound before
      inbound; failing both the newest outbound response of all, and failing that the newest inbound one. */
  lemma PlainResponse(listing: seq<Entry>, log: seq<Written>, request: Payload, response: Payload, strategy: Strategy)
    requires WrittenAs(listing, log)
    requires IsLatest(listing, OUTBOUND_REQUEST.Text(), "", request)
    requires Chosen(listing, request, response, strategy)
    ensures var out, inn := Direction("outbound", "response"), Direction("inbound", "response");
            if WroteOp(log, out, request.Type()) then NewestWritten(listing, log, out, request.Type(), response)
            else if WroteOp(log, inn, request.Type()) then NewestWritten(listing, log, inn, request.Type(), response)
            else if WroteTo(log, out) then NewestWritten(listing, log, out, "", response)
            else if WroteTo(log, inn) then NewestWritten(listing, log, inn, "", response)
            else response == NoPayload
  {
    hide NewestWritten, WrittenAs, IsLatest, Matches, WroteOp, WroteTo;
    RequestWritten(listing, log, request);
    var t := request.Type();
    AnyWritten(listing, log, OUTBOUND, t);
    AnyWritten(listing, log, INBOUND, t);
    AnyWrittenTo(listing, log, OUTBOUND);
    AnyWrittenTo(listing, log, INBOUND);
    hide AnyMatch;
    if WroteOp(log, OUTBOUND, t) {
      LatestIsNewest(listing, log, OUTBOUND, t, response);
    } else if WroteOp(log, INBOUND, t) {
      LatestIsNewest(listing, log, INBOUND, t, response);
    } else if WroteTo(log, OUTBOUND) {
      LatestIsNewest(listing, log, OUTBOUND, "", response);
    } else if WroteTo(log, INBOUND) {
      LatestIsNewest(listing, log, INBOUND, "", response);
    }
  }

  /** What the session engine writes: a request under its own name, its reply under another. */
  predicate EngineWrites(w: Written) {
    || (w.direction == OUTBOUND_REQUEST && w.op in ["commsOnLine", "getDescriptor", "setKeepAlive", "keepAlive"])
    || (w.direction == INBOUND && w.op in ["commsOnLineAck", "descriptorList", "setKeepAliveAck", "keepAliveAck"])
  }

  lemma EngineNamesDiffer(request: Written, response: Written)
    requires EngineWrites(request) && request.direction == OUTBOUND_REQUEST
    requires EngineWrites(response) && response.direction != OUTBOUND_REQUEST
    ensures request.op != response.op
  {
  }

  lemma RepliesNamedApart(log: seq<Written>, op: string, w: Direction)
    requires (forall x <- log :: EngineWrites(x)) && WroteOp(log, OUTBOUND_REQUEST, op)
    requires w == OUTBOUND || w == INBOUND
    ensures !WroteOp(log, w, op)
  {
    hide EngineWrites;
    assert w.second[2] == 's' && OUTBOUND_REQUEST.second[2] == 'q';
    var r :| r in log && r.direction == OUTBOUND_REQUEST && r.op == op;
    forall x | x in log && x.direction == w ensures x.op != op { EngineNamesDiffer(r, x); }
  }

  /** So among the session engine's own files a matching strategy never succeeds: its latest request is
      always paired by fallback, and the mismatch is warned of as soon as there is any response. */
  lemma EnginePairsByFallback(listing: seq<Entry>, log: seq<Written>, request: Payload, response: Payload, strategy: Strategy)
    requires WrittenAs(listing, log) && forall w <- log :: EngineWrites(w)
    requires IsLatest(listing, OUTBOUND_REQUEST.Text(), "", request)
    requires Chosen(listing, request, response, strategy)
    ensures strategy == Fallback
  {
    hide EngineWrites, WrittenAs, IsLatest, Chosen, WroteOp;
    RequestWritten(listing, log, request);
    PlainPairing(listing, log, request, response, strategy);
    RepliesNamedApart(log, request.Type(), OUTBOUND);
    RepliesNamedApart(log, request.Type(), INBOUND);
  }
}
