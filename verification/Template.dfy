/** Template substitution. The code replaces one placeholder at a time over the
    whole text, in an order Go leaves open for two of its three maps. The
    reference is a single simultaneous substitution over the template's pieces. */
module Template {
  import opened Text

  /** strings.ReplaceAll for a non-empty pattern: leftmost, non-overlapping. */
  function ReplaceAll(s: string, pattern: string, value: string): string
    requires pattern != ""
  {
    if |s| < |pattern| then s
    else if pattern <= s then value + ReplaceAll(s[|pattern|..], pattern, value)
    else [s[0]] + ReplaceAll(s[1..], pattern, value)
  }

  /** The text "{{name}}". */
  function Mark(name: string): string {
    "{{" + name + "}}"
  }

  datatype Piece = Literal(text: string) | Placeholder(name: string) {
    function Show(): string {
      match this
      case Literal(text) => text
      case Placeholder(name) => Mark(name)
    }

    /** Literals hold no opening brace and names no brace at all. */
    predicate Plain() {
      match this
      case Literal(text) => '{' !in text
      case Placeholder(name) => PlainName(name)
    }

    /** A bound placeholder becomes its value; an unbound one stays as it is. */
    function Fill(env: map<string, string>): Piece {
      if Placeholder? && name in env then Literal(env[name]) else this
    }
  }

  predicate PlainName(name: string) {
    '{' !in name && '}' !in name
  }

  ghost predicate PlainPieces(pieces: seq<Piece>) {
    forall p <- pieces :: p.Plain()
  }

  function Flatten(pieces: seq<Piece>): string {
    if pieces == [] then "" else pieces[0].Show() + Flatten(pieces[1..])
  }

  /** Simultaneous substitution: one look at each piece of the original template. */
  function FillAll(pieces: seq<Piece>, env: map<string, string>): (filled: seq<Piece>)
    ensures |filled| == |pieces|
    ensures forall i :: 0 <= i < |pieces| ==> filled[i] == pieces[i].Fill(env)
  {
    seq(|pieces|, i requires 0 <= i < |pieces| => pieces[i].Fill(env))
  }

  // ----- one replacement -----

  /** What no occurrence starts in is skipped. */
  lemma {:induction false} ReplaceSkips(a: string, b: string, pattern: string, value: string)
    requires pattern != "" && forall i :: 0 <= i < |a| ==> !(pattern <= (a + b)[i..])
    ensures ReplaceAll(a + b, pattern, value) == a + ReplaceAll(b, pattern, value)
    decreases |a|
  {
    var s := a + b;
    if a == "" {
      assert s == b;
    } else if |s| < |pattern| {
      assert ReplaceAll(b, pattern, value) == b;
    } else {
      assert s[0..] == s && s[1..] == a[1..] + b;
      assert forall i :: 0 <= i < |a[1..]| ==> (a[1..] + b)[i..] == s[i + 1..];
      ReplaceSkips(a[1..], b, pattern, value);
      assert a == [a[0]] + a[1..];
    }
  }

  lemma ReplaceSkipsPlain(a: string, b: string, name: string, value: string)
    requires '{' !in a
    ensures ReplaceAll(a + b, Mark(name), value) == a + ReplaceAll(b, Mark(name), value)
  {
    forall i | 0 <= i < |a| ensures !(Mark(name) <= (a + b)[i..]) {
      assert (a + b)[i..][0] == a[i] && Mark(name)[0] == '{';
    }
    ReplaceSkips(a, b, Mark(name), value);
  }

  /** A mark is a prefix of a text that starts with another mark only when both name the same. */
  lemma MarkPrefix(name: string, other: string, rest: string)
    requires PlainName(name) && PlainName(other)
    ensures Mark(name) <= Mark(other) + rest <==> name == other
  {
    var m, s := Mark(name), Mark(other) + rest;
    assert forall i :: 0 <= i < |name| ==> m[2 + i] == name[i] && name[i] in name;
    assert forall i :: 0 <= i < |other| ==> s[2 + i] == other[i] && other[i] in other;
    assert m[2 + |name|] == '}' && s[2 + |other|] == '}';
    if m <= s {
      assert forall i :: 0 <= i < |m| ==> m[i] == s[i];
      assert |name| == |other|;
      assert forall i :: 0 <= i < |name| ==> name[i] == other[i];
    }
  }

  lemma ReplaceAtMark(name: string, other: string, rest: string, value: string)
    requires PlainName(name) && PlainName(other)
    ensures ReplaceAll(Mark(other) + rest, Mark(name), value)
         == (if name == other then value else Mark(other)) + ReplaceAll(rest, Mark(name), value)
  {
    var m, s := Mark(name), Mark(other) + rest;
    MarkPrefix(name, other, rest);
    if name == other {
      assert s[|m|..] == rest;
    } else {
      assert forall i :: 2 <= i < |Mark(other)| ==> s[i] == Mark(other)[i] == (other + "}}")[i - 2] && s[i] != '{';
      assert m[0] == m[1] == '{' && s[2] != '{';
      forall i | 0 <= i < |Mark(other)| ensures !(m <= s[i..]) {
        assert s[i..][0] == s[i] && (i == 1 ==> s[i..][1] == s[2]);
        assert s[0..] == s;
      }
      ReplaceSkips(Mark(other), rest, m, value);
    }
  }

  // ----- values that form marks -----

  /** Two values, one right after the other, form the mark of a name, or start to: then literal text that
      follows in a template can finish it. */
  predicate Forms(u: string, v: string, name: string) {
    Contains(u + v, Mark(name)) || exists k: nat | k <= |name| + 2 :: HasSuffix(u + v, "{{" + (name + "}}")[..k])
  }

  ghost predicate NoneForms(values: set<string>, name: string) {
    forall u <- values, v <- values :: !Forms(u, v, name)
  }

  /** Pieces of a plain template, some of them already replaced by values. */
  ghost predicate Mixed(pieces: seq<Piece>, values: set<string>) {
    forall p <- pieces :: p.Plain() || (p.Literal? && p.text in values)
  }

  lemma SecondBrace(pieces: seq<Piece>)
    requires pieces != []
    ensures pieces[0].Placeholder? ==> |Flatten(pieces)| >= 2 && Flatten(pieces)[1] == '{'
  {
  }

  /** Only a value can go on with a brace that a mark could use. */
  lemma {:induction false} NextIsValue(pieces: seq<Piece>, values: set<string>, name: string)
    returns (v: string, more: string)
    requires Mixed(pieces, values) && PlainName(name) && "{" + name + "}}" <= Flatten(pieces)
    ensures v in values && v != "" && Flatten(pieces) == v + more
    decreases |pieces|
  {
    var s, text := "{" + name + "}}", Flatten(pieces);
    assert text[0] == s[0] == '{';
    assert text[1] == s[1] == (name + "}}")[0] && text[1] != '{';
    var rest := Flatten(pieces[1..]);
    if pieces[0].Show() == "" {
      assert text == rest;
      v, more := NextIsValue(pieces[1..], values, name);
    } else {
      assert text[0] == pieces[0].Show()[0];
      SecondBrace(pieces);
      v, more := pieces[0].text, rest;
    }
  }

  /** If a mark starts inside a value that is followed by such pieces, then some values form it. */
  lemma StartsForm(v: string, pieces: seq<Piece>, values: set<string>, name: string, i: nat)
    requires Mixed(pieces, values) && v in values && PlainName(name) && i < |v|
    requires Mark(name) <= (v + Flatten(pieces))[i..]
    ensures !NoneForms(values, name)
  {
    var m, s := Mark(name), (v + Flatten(pieces))[i..];
    var n := |v| - i;
    assert m == "{{" + (name + "}}");
    if |m| <= n {
      assert (v + v)[i..i + |m|] == s[..|m|];
      assert Occurs(v + v, m, i);
      assert Forms(v, v, name);
    } else if n >= 2 {
      assert v[i..] == s[..n] == m[..n] == "{{" + (name + "}}")[..n - 2];
      assert (v + v)[|v + v| - n..] == v[i..];
      assert HasSuffix(v + v, "{{" + (name + "}}")[..n - 2]);
      assert Forms(v, v, name);
    } else {
      assert s[0] == v[i] == '{' && s[1..] == Flatten(pieces) && m[1..] == "{" + name + "}}";
      assert m[1..] <= s[1..];
      var w, more := NextIsValue(pieces, values, name);
      ContinuedForms(v, w, more, name);
    }
  }

  /** A value that ends in a brace, and one after it that goes on with the rest of a mark. */
  lemma ContinuedForms(v: string, w: string, more: string, name: string)
    requires v != "" && v[|v| - 1] == '{' && w != "" && "{" + name + "}}" <= w + more
    ensures Forms(v, w, name)
  {
    var m, tail := Mark(name), "{" + name + "}}";
    assert m == "{" + tail && tail == "{" + (name + "}}");
    if |tail| <= |w| {
      assert w[..|tail|] == (w + more)[..|tail|] == tail;
      assert (v + w)[|v| - 1..|v| - 1 + |m|] == "{" + tail;
      assert Occurs(v + w, m, |v| - 1);
    } else {
      assert w == (w + more)[..|w|] == tail[..|w|] == "{" + (name + "}}")[..|w| - 1];
      assert (v + w)[|v| - 1..] == "{" + w == "{{" + (name + "}}")[..|w| - 1];
      assert HasSuffix(v + w, "{{" + (name + "}}")[..|w| - 1]);
    }
  }

  /** Replacing one placeholder in the text is filling it in the pieces, if the values already there do not
      form its mark. */
  lemma {:induction false} ReplaceFills(pieces: seq<Piece>, values: set<string>, name: string, value: string)
    requires Mixed(pieces, values) && PlainName(name) && NoneForms(values, name)
    ensures ReplaceAll(Flatten(pieces), Mark(name), value) == Flatten(FillAll(pieces, map[name := value]))
    decreases |pieces|
  {
    var env := map[name := value];
    if pieces != [] {
      var rest := pieces[1..];
      ReplaceFills(rest, values, name, value);
      assert FillAll(pieces, env)[1..] == FillAll(rest, env);
      match pieces[0]
      case Literal(text) =>
        if text in values {
          forall i | 0 <= i < |text| ensures !(Mark(name) <= (text + Flatten(rest))[i..]) {
            if Mark(name) <= (text + Flatten(rest))[i..] { StartsForm(text, rest, values, name, i); }
          }
          ReplaceSkips(text, Flatten(rest), Mark(name), value);
        } else {
          assert pieces[0].Plain();
          ReplaceSkipsPlain(text, Flatten(rest), name, value);
        }
      case Placeholder(other) =>
        assert pieces[0].Plain();
        ReplaceAtMark(name, other, Flatten(rest), value);
    }
  }

  /** Replacing a mark by itself changes nothing. */
  lemma {:induction false} ReplaceBySelf(s: string, pattern: string)
    requires pattern != ""
    ensures ReplaceAll(s, pattern, pattern) == s
    decreases |s|
  {
    if |s| >= |pattern| {
      ReplaceBySelf(if pattern <= s then s[|pattern|..] else s[1..], pattern);
      assert pattern <= s ==> s == pattern + s[|pattern|..];
      assert s == [s[0]] + s[1..];
    }
  }

  lemma {:induction false} FillBySelf(pieces: seq<Piece>, name: string)
    ensures Flatten(FillAll(pieces, map[name := Mark(name)])) == Flatten(pieces)
    decreases |pieces|
  {
    var env := map[name := Mark(name)];
    if pieces != [] {
      FillBySelf(pieces[1..], name);
      assert FillAll(pieces, env)[1..] == FillAll(pieces[1..], env);
    }
  }

  /** Replacing a pattern that occurs by anything else changes the text. */
  lemma {:induction false} ReplaceChanges(s: string, pattern: string, value: string)
    requires pattern != ""
    ensures var r := ReplaceAll(s, pattern, value);
            && (|value| >= |pattern| ==> |r| >= |s|) && (|value| <= |pattern| ==> |r| <= |s|)
            && (Contains(s, pattern) && |value| > |pattern| ==> |r| > |s|)
            && (Contains(s, pattern) && |value| < |pattern| ==> |r| < |s|)
            && (Contains(s, pattern) && value != pattern ==> r != s)
    decreases |s|
  {
    if |s| >= |pattern| {
      if pattern <= s {
        ReplaceChanges(s[|pattern|..], pattern, value);
        var r := ReplaceAll(s, pattern, value);
        assert r[..|value|] == value && s[..|pattern|] == pattern;
      } else {
        ReplaceChanges(s[1..], pattern, value);
        var r := ReplaceAll(s, pattern, value);
        assert r[1..] == ReplaceAll(s[1..], pattern, value);
        if Contains(s, pattern) {
          var p: nat :| p <= |s| && Occurs(s, pattern, p);
          assert s[0..|pattern|] == s[..|pattern|];
          assert s[1..][p - 1..p - 1 + |pattern|] == pattern;
          assert Occurs(s[1..], pattern, p - 1);
        }
      }
    }
  }

  // ----- a run of replacements -----

  /** One ReplaceAll per binding, in the order given. */
  function ReplaceEach(s: string, bindings: seq<(string, string)>): string
    decreases |bindings|
  {
    if bindings == [] then s
    else ReplaceEach(ReplaceAll(s, Mark(bindings[0].0), bindings[0].1), bindings[1..])
  }

  /** The bindings as a map; the earliest binding of a name counts. */
  function Environment(bindings: seq<(string, string)>): map<string, string> {
    if bindings == [] then map[]
    else Environment(bindings[1..]) + map[bindings[0].0 := bindings[0].1]
  }

  ghost predicate PlainNames(bindings: set<(string, string)>) {
    forall b <- bindings :: PlainName(b.0)
  }

  /** No name is bound twice, as in the key order of a map. */
  ghost predicate DistinctNames(bindings: seq<(string, string)>) {
    forall i, j :: 0 <= i < j < |bindings| ==> bindings[i].0 != bindings[j].0
  }

  function ValuesOf(bindings: set<(string, string)>): set<string> {
    set b <- bindings :: b.1
  }

  /** The values of the other names. */
  function OtherValues(bindings: set<(string, string)>, name: string): set<string> {
    set b <- bindings | b.0 != name :: b.1
  }

  /** For every name: no two values of other names form its mark, or its own value is that mark. */
  ghost predicate Clear(bindings: set<(string, string)>) {
    forall b <- bindings :: b.1 == Mark(b.0) || NoneForms(OtherValues(bindings, b.0), b.0)
  }

  function Elements(order: seq<(string, string)>): set<(string, string)> {
    set b <- order
  }

  lemma {:induction false} EnvironmentBindings(bindings: seq<(string, string)>)
    ensures forall n <- Environment(bindings) :: (n, Environment(bindings)[n]) in bindings
    ensures forall b <- bindings :: b.0 in Environment(bindings)
  {
    if bindings != [] {
      EnvironmentBindings(bindings[1..]);
      assert bindings == [bindings[0]] + bindings[1..];
    }
  }

  lemma FillTwice(pieces: seq<Piece>, first: map<string, string>, second: map<string, string>)
    ensures FillAll(FillAll(pieces, first), second) == FillAll(pieces, second + first)
  {
  }

  /** Replacing the placeholders in the text one after another is filling them all at once. */
  ghost predicate Simultaneous(pieces: seq<Piece>, order: seq<(string, string)>) {
    ReplaceEach(Flatten(pieces), order) == Flatten(FillAll(pieces, Environment(order)))
  }

  /** One replacement of a run, the bindings in `done` having been replaced before. */
  lemma ReplaceOne(pieces: seq<Piece>, done: set<(string, string)>, all: set<(string, string)>, b: (string, string))
    requires Mixed(pieces, ValuesOf(done)) && b in all && done <= all && PlainName(b.0) && Clear(all)
    requires forall d <- done :: d.0 != b.0
    ensures ReplaceAll(Flatten(pieces), Mark(b.0), b.1) == Flatten(FillAll(pieces, map[b.0 := b.1]))
    ensures Mixed(FillAll(pieces, map[b.0 := b.1]), ValuesOf(done + {b}))
  {
    if b.1 == Mark(b.0) {
      ReplaceBySelf(Flatten(pieces), Mark(b.0));
      FillBySelf(pieces, b.0);
    } else {
      assert ValuesOf(done) <= OtherValues(all, b.0);
      ReplaceFills(pieces, ValuesOf(done), b.0, b.1);
    }
    assert b in done + {b} && b.1 in ValuesOf(done + {b});
    assert ValuesOf(done) <= ValuesOf(done + {b});
    var filled := FillAll(pieces, map[b.0 := b.1]);
    forall p | p in filled ensures p.Plain() || (p.Literal? && p.text in ValuesOf(done + {b})) {
      var i :| 0 <= i < |filled| && filled[i] == p;
      assert pieces[i] in pieces && p == pieces[i].Fill(map[b.0 := b.1]);
    }
  }

  lemma {:induction false} ReplaceRest(pieces: seq<Piece>, done: set<(string, string)>, all: set<(string, string)>,
                                       order: seq<(string, string)>)
    requires Mixed(pieces, ValuesOf(done)) && done <= all && Elements(order) <= all && PlainNames(all) && Clear(all)
    requires DistinctNames(order) && forall d <- done, b <- order :: d.0 != b.0
    ensures Simultaneous(pieces, order)
    decreases |order|
  {
    if order == [] {
      assert FillAll(pieces, map[]) == pieces;
    } else {
      var b := order[0];
      var first := map[b.0 := b.1];
      assert b in order && b in Elements(order);
      assert forall x <- order[1..] :: x in order && x in Elements(order);
      ReplaceOne(pieces, done, all, b);
      forall d, x | d in done + {b} && x in order[1..] ensures d.0 != x.0 {
        var j :| 0 <= j < |order[1..]| && order[1..][j] == x;
        assert order[j + 1] == x;
      }
      ReplaceRest(FillAll(pieces, first), done + {b}, all, order[1..]);
      FillTwice(pieces, first, Environment(order[1..]));
    }
  }

  /** Repeated whole-text replacement refines simultaneous substitution: for clear bindings, in whatever
      selection and order, on every plain template. */
  lemma ReplaceEachIsSimultaneous(pieces: seq<Piece>, all: set<(string, string)>, order: seq<(string, string)>)
    requires PlainPieces(pieces) && PlainNames(all) && Clear(all)
    requires DistinctNames(order) && Elements(order) <= all
    ensures Simultaneous(pieces, order)
  {
    ReplaceRest(pieces, {}, all, order);
  }

  lemma PlainIsClear(all: set<(string, string)>)
    requires forall b <- all :: '{' !in b.1
    ensures Clear(all)
  {
    forall b, u, v | b in all && u in OtherValues(all, b.0) && v in OtherValues(all, b.0) ensures !Forms(u, v, b.0) {
      PlainFormsNothing(u, v, b.0);
    }
  }

  lemma PlainFormsNothing(u: string, v: string, name: string)
    requires '{' !in u && '{' !in v
    ensures !Forms(u, v, name)
  {
    var s := u + v;
    assert '{' !in s && Mark(name)[0] == '{';
    forall p: nat | p <= |s| ensures !Occurs(s, Mark(name), p) {
      if p + |Mark(name)| <= |s| { assert s[p..p + |Mark(name)|][0] == s[p]; }
    }
    forall k: nat | k <= |name| + 2 ensures !HasSuffix(s, "{{" + (name + "}}")[..k]) {
      var t := "{{" + (name + "}}")[..k];
      if |t| <= |s| { assert s[|s| - |t|..][0] == s[|s| - |t|] != t[0]; }
    }
  }

  /** Any two iteration orders of the same clear bindings give the same text. */
  lemma OrderIrrelevant(pieces: seq<Piece>, a: seq<(string, string)>, b: seq<(string, string)>)
    requires PlainPieces(pieces) && PlainNames(Elements(a)) && Clear(Elements(a))
    requires DistinctNames(a) && DistinctNames(b) && Elements(a) == Elements(b)
    ensures ReplaceEach(Flatten(pieces), a) == ReplaceEach(Flatten(pieces), b)
  {
    ReplaceEachIsSimultaneous(pieces, Elements(a), a);
    ReplaceEachIsSimultaneous(pieces, Elements(a), b);
    SameEnvironment(a, b);
  }

  lemma SameEnvironment(a: seq<(string, string)>, b: seq<(string, string)>)
    requires DistinctNames(a) && DistinctNames(b) && Elements(a) == Elements(b)
    ensures Environment(a) == Environment(b)
  {
    EnvironmentBindings(a);
    EnvironmentBindings(b);
    var ea, eb := Environment(a), Environment(b);
    forall n ensures (n in ea <==> n in eb) && (n in ea ==> ea[n] == eb[n]) {
      if n in ea { assert (n, ea[n]) in a && (n, ea[n]) in Elements(b); }
      if n in eb { assert (n, eb[n]) in b && (n, eb[n]) in Elements(a); }
    }
  }

  // ----- the condition is exact -----

  /** Literal text that finishes what two values form. */
  lemma Finished(u: string, v: string, name: string) returns (rest: string)
    requires Forms(u, v, name) && PlainName(name)
    ensures '{' !in rest && Contains(u + v + rest, Mark(name))
  {
    var m, s := Mark(name), u + v;
    if Contains(s, m) {
      rest := "";
      assert s + rest == s;
    } else {
      var k: nat :| k <= |name| + 2 && HasSuffix(s, "{{" + (name + "}}")[..k]);
      var tail := name + "}}";
      rest := tail[k..];
      var p := |s| - 2 - k;
      assert s[p..] == "{{" + tail[..k] && tail == tail[..k] + tail[k..];
      assert (s + rest)[p..] == "{{" + tail == m;
      assert (s + rest)[p..p + |m|] == m;
      assert Occurs(s + rest, m, p);
      assert '{' !in tail && forall c <- rest :: c in tail;
    }
  }

  lemma ThreePieces(a: Piece, b: Piece, c: Piece)
    ensures Flatten([a, b, c]) == a.Show() + b.Show() + c.Show()
  {
    assert [a, b, c][1..] == [b, c] && [b, c][1..] == [c] && [c][1..] == [];
    assert Flatten([c]) == c.Show() + Flatten([]) == c.Show();
    assert Flatten([b, c]) == b.Show() + Flatten([c]);
    assert a.Show() + (b.Show() + c.Show()) == a.Show() + b.Show() + c.Show();
  }

  /** When two values form a name's mark and its own value is another text, then some plain template holding only
      the names of those two comes out changed by replacing that name after them. */
  lemma FormedIsReplaced(x: (string, string), y: (string, string), b: (string, string), env: map<string, string>)
    returns (pieces: seq<Piece>)
    requires PlainName(x.0) && PlainName(y.0) && PlainName(b.0) && x.0 != b.0 && y.0 != b.0
    requires Forms(x.1, y.1, b.0) && b.1 != Mark(b.0)
    requires x.0 in env && env[x.0] == x.1 && y.0 in env && env[y.0] == y.1
    ensures PlainPieces(pieces) && Placeholder(b.0) !in pieces
    ensures var t := Flatten(FillAll(pieces, env)); ReplaceAll(t, Mark(b.0), b.1) != t
  {
    var rest := Finished(x.1, y.1, b.0);
    pieces := [Placeholder(x.0), Placeholder(y.0), Literal(rest)];
    assert FillAll(pieces, env) == [Literal(x.1), Literal(y.1), Literal(rest)];
    ThreePieces(Literal(x.1), Literal(y.1), Literal(rest));
    ReplaceChanges(x.1 + y.1 + rest, Mark(b.0), b.1);
  }

  /** Every selection of the bindings, in every order, is simultaneous on every plain template. */
  ghost predicate AlwaysSimultaneous(all: set<(string, string)>) {
    forall pieces, order ::
      PlainPieces(pieces) && DistinctNames(order) && Elements(order) <= all ==> Simultaneous(pieces, order)
  }

  /** That holds exactly of clear bindings. */
  lemma ClearExactly(all: set<(string, string)>)
    requires PlainNames(all) && forall x <- all, y <- all :: x.0 == y.0 ==> x == y
    ensures AlwaysSimultaneous(all) <==> Clear(all)
  {
    if Clear(all) {
      forall pieces, order | PlainPieces(pieces) && DistinctNames(order) && Elements(order) <= all
        ensures Simultaneous(pieces, order)
      {
        ReplaceEachIsSimultaneous(pieces, all, order);
      }
    } else {
      var b, u, v :| b in all && b.1 != Mark(b.0) && u in OtherValues(all, b.0) && v in OtherValues(all, b.0)
                     && Forms(u, v, b.0);
      var x :| x in all && x.0 != b.0 && x.1 == u;
      var y :| y in all && y.0 != b.0 && y.1 == v;
      NotAlways(all, x, y, b);
    }
  }

  lemma NotAlways(all: set<(string, string)>, x: (string, string), y: (string, string), b: (string, string))
    requires PlainNames(all) && x in all && y in all && b in all && (x.0 == y.0 ==> x == y)
    requires x.0 != b.0 && y.0 != b.0 && Forms(x.1, y.1, b.0) && b.1 != Mark(b.0)
    ensures !AlwaysSimultaneous(all)
  {
    hide Forms, Mark;
    var before := if x == y then [x] else [x, y];
    var order := before + [b];
    EnvironmentBindings(before);
    assert x in before && y in before && DistinctNames(order);
    var env := Environment(before);
    assert Elements(before) <= all && Elements(order) <= all;
    var pieces := FormedIsReplaced(x, y, b, env);
    hide PlainNames, Environment, Elements;
    if Simultaneous(pieces, before) && Simultaneous(pieces, order) {
      ReplaceEachSnoc(Flatten(pieces), before, b);
      LastUnseen(pieces, before, b);
      assert false;
    }
  }

  /** A last binding that no placeholder names changes no filling. */
  lemma LastUnseen(pieces: seq<Piece>, before: seq<(string, string)>, b: (string, string))
    requires Placeholder(b.0) !in pieces
    ensures FillAll(pieces, Environment(before + [b])) == FillAll(pieces, Environment(before))
  {
    EnvironmentSnoc(before, b);
    forall i | 0 <= i < |pieces|
      ensures pieces[i].Fill(Environment(before + [b])) == pieces[i].Fill(Environment(before))
    {
      assert pieces[i] in pieces;
    }
  }

  lemma {:induction false} EnvironmentSnoc(before: seq<(string, string)>, b: (string, string))
    ensures Environment(before + [b]) == map[b.0 := b.1] + Environment(before)
    decreases |before|
  {
    if before == [] {
      assert before + [b] == [b] && [b][1..] == [];
    } else {
      assert (before + [b])[1..] == before[1..] + [b];
      EnvironmentSnoc(before[1..], b);
    }
  }

  /** Two bindings: their two orders agree on every plain template exactly when they are clear, that is when neither
      value, twice in a row, forms the other's mark, unless the other value is that mark. */
  lemma OrdersAgreeExactly(a: (string, string), b: (string, string))
    requires PlainName(a.0) && PlainName(b.0) && a.0 != b.0
    ensures OrdersAgree(a, b) <==> Clear({a, b})
    ensures Clear({a, b}) <==> (b.1 == Mark(b.0) || !Forms(a.1, a.1, b.0)) && (a.1 == Mark(a.0) || !Forms(b.1, b.1, a.0))
  {
    assert OtherValues({a, b}, a.0) == {b.1} && OtherValues({a, b}, b.0) == {a.1};
    if Clear({a, b}) {
      assert Elements([a, b]) == {a, b} == Elements([b, a]);
      forall pieces | PlainPieces(pieces)
        ensures ReplaceEach(Flatten(pieces), [a, b]) == ReplaceEach(Flatten(pieces), [b, a])
      {
        OrderIrrelevant(pieces, [a, b], [b, a]);
      }
    } else if b.1 != Mark(b.0) && Forms(a.1, a.1, b.0) {
      OrdersDiffer(a, b);
    } else {
      OrdersDiffer(b, a);
      assert OrdersAgree(a, b) ==> OrdersAgree(b, a);
    }
  }

  ghost predicate OrdersAgree(a: (string, string), b: (string, string)) {
    forall pieces {:trigger Flatten(pieces)} :: PlainPieces(pieces) ==>
      ReplaceEach(Flatten(pieces), [a, b]) == ReplaceEach(Flatten(pieces), [b, a])
  }

  lemma OrdersDiffer(a: (string, string), b: (string, string))
    requires PlainName(a.0) && PlainName(b.0) && a.0 != b.0 && b.1 != Mark(b.0) && Forms(a.1, a.1, b.0)
    ensures !OrdersAgree(a, b)
  {
    var env := map[a.0 := a.1];
    var pieces := FormedIsReplaced(a, a, b, env);
    var s := Flatten(pieces);
    ReplaceFills(pieces, {}, a.0, a.1);
    ReplaceFills(pieces, {}, b.0, b.1);
    assert FillAll(pieces, map[b.0 := b.1]) == pieces by {
      assert forall i :: 0 <= i < |pieces| ==> pieces[i] in pieces;
    }
    ReplaceTwo(s, a, b);
    ReplaceTwo(s, b, a);
  }

  lemma ReplaceTwo(s: string, a: (string, string), b: (string, string))
    ensures ReplaceEach(s, [a, b]) == ReplaceAll(ReplaceAll(s, Mark(a.0), a.1), Mark(b.0), b.1)
  {
    assert [a, b][1..] == [b] && [b][1..] == [];
    var t := ReplaceAll(s, Mark(a.0), a.1);
    assert ReplaceEach(t, [b]) == ReplaceEach(ReplaceAll(t, Mark(b.0), b.1), []);
  }

  lemma {:induction false} ReplaceEachSnoc(s: string, order: seq<(string, string)>, b: (string, string))
    ensures ReplaceEach(s, order + [b]) == ReplaceAll(ReplaceEach(s, order), Mark(b.0), b.1)
    decreases |order|
  {
    if order == [] {
      assert order + [b] == [b];
    } else {
      assert (order + [b])[1..] == order[1..] + [b];
      ReplaceEachSnoc(ReplaceAll(s, Mark(order[0].0), order[0].1), order[1..], b);
    }
  }

  lemma ReplaceOneMark(name: string, other: string, value: string)
    requires PlainName(name) && PlainName(other)
    ensures ReplaceAll(Mark(other), Mark(name), value) == if name == other then value else Mark(other)
  {
    ReplaceAtMark(name, other, "", value);
    assert Mark(other) + "" == Mark(other) && value + "" == value;
  }

  /** The values must hold no opening brace: when two values name each other's
      placeholder, the two iteration orders give different texts. */
  lemma OrderMattersForBracedValues(a: string, b: string)
    requires PlainName(a) && PlainName(b) && a != b
    ensures ReplaceEach(Mark(a), [(a, Mark(b)), (b, Mark(a))]) == Mark(a)
    ensures ReplaceEach(Mark(a), [(b, Mark(a)), (a, Mark(b))]) == Mark(b)
  {
    var x, y := (a, Mark(b)), (b, Mark(a));
    ReplaceEachSnoc(Mark(a), [x], y);
    ReplaceEachSnoc(Mark(a), [], x);
    ReplaceEachSnoc(Mark(a), [y], x);
    ReplaceEachSnoc(Mark(a), [], y);
    assert [] + [x] == [x] && [] + [y] == [y] && [x] + [y] == [x, y] && [y] + [x] == [y, x];
    ReplaceOneMark(a, a, Mark(b));
    ReplaceOneMark(b, b, Mark(a));
    ReplaceOneMark(b, a, Mark(a));
  }

  // ----- RenderTemplate -----

  /** The bindings of one source map, e.g. "state.x" for key x with prefix "state.". */
  function Bindings(prefix: string, m: map<string, string>, keys: set<string>): set<(string, string)>
    requires keys <= m.Keys
  {
    set k <- keys :: (prefix + k, m[k])
  }

  function RenderBindings(ns: map<string, string>, request: map<string, string>, state: map<string, string>)
    : set<(string, string)>
  {
    Bindings(NS, ns, ns.Keys) + Bindings(REQUEST, request, request.Keys) + Bindings(STATE, state, state.Keys)
  }

  /** The value bound to a name such as "request.hostId", read off the three maps. */
  function Lookup(ns: map<string, string>, request: map<string, string>, state: map<string, string>, name: string)
    : Option<string>
  {
    if "ns." <= name && name[3..] in ns then Some(ns[name[3..]])
    else if "request." <= name && name[8..] in request then Some(request[name[8..]])
    else if "state." <= name && name[6..] in state then Some(state[name[6..]])
    else None
  }

  /** What a template piece shows once rendered. */
  function Shown(ns: map<string, string>, request: map<string, string>, state: map<string, string>, p: Piece): string {
    match p
    case Literal(text) => text
    case Placeholder(name) => match Lookup(ns, request, state, name) case Some(v) => v case None => Mark(name)
  }

  function ShownAll(ns: map<string, string>, request: map<string, string>, state: map<string, string>,
                    pieces: seq<Piece>): string
  {
    if pieces == [] then "" else Shown(ns, request, state, pieces[0]) + ShownAll(ns, request, state, pieces[1..])
  }

  ghost predicate PlainKeys(m: map<string, string>) {
    forall k <- m :: PlainName(k)
  }

  lemma BindingOf(ns: map<string, string>, request: map<string, string>, state: map<string, string>, b: (string, string))
    ensures b in RenderBindings(ns, request, state) <==> Lookup(ns, request, state, b.0) == Some(b.1)
  {
    var name := b.0;
    assert forall k :: ("ns." + k)[3..] == k && ("request." + k)[8..] == k && ("state." + k)[6..] == k;
    assert "ns." <= name ==> name == "ns." + name[3..];
    assert "request." <= name ==> name == "request." + name[8..];
    assert "state." <= name ==> name == "state." + name[6..];
    assert "ns." <= name ==> name[0] == 'n';
    assert "request." <= name ==> name[0] == 'r';
    assert "state." <= name ==> name[0] == 's';
  }

  /** Filling from any enumeration of the three maps shows each piece's looked-up value. */
  lemma {:induction false} FilledIsShown(ns: map<string, string>, request: map<string, string>, state: map<string, string>,
                                         order: seq<(string, string)>, pieces: seq<Piece>)
    requires forall b :: b in order <==> b in RenderBindings(ns, request, state)
    ensures Flatten(FillAll(pieces, Environment(order))) == ShownAll(ns, request, state, pieces)
  {
    if pieces != [] {
      var env := Environment(order);
      FilledIsShown(ns, request, state, order, pieces[1..]);
      assert FillAll(pieces, env)[1..] == FillAll(pieces[1..], env);
      EnvironmentBindings(order);
      if pieces[0].Placeholder? {
        var name := pieces[0].name;
        if name in env {
          BindingOf(ns, request, state, (name, env[name]));
        } else if Lookup(ns, request, state, name).Some? {
          BindingOf(ns, request, state, (name, Lookup(ns, request, state, name).value));
          assert false;
        }
      }
    }
  }

  /** The output so far, after replacing the bindings of `order`, which are those in `bound`. */
  ghost predicate Reached(tmpl: string, out: string, order: seq<(string, string)>, bound: set<(string, string)>) {
    out == ReplaceEach(tmpl, order) && DistinctNames(order) && Elements(order) == bound
  }

  lemma ReachedOneMore(tmpl: string, out: string, order: seq<(string, string)>, prior: set<(string, string)>,
                       prefix: string, m: map<string, string>, done: set<string>, k: string)
    requires done <= m.Keys && k in m.Keys && k !in done && forall b <- prior :: b.0 != prefix + k
    requires Reached(tmpl, out, order, prior + Bindings(prefix, m, done))
    ensures Reached(tmpl, ReplaceAll(out, Mark(prefix + k), m[k]), order + [(prefix + k, m[k])],
                    prior + Bindings(prefix, m, done + {k}))
  {
    var b := (prefix + k, m[k]);
    ReplaceEachSnoc(tmpl, order, b);
    assert Elements(order + [b]) == Elements(order) + {b};
    assert Bindings(prefix, m, done + {k}) == Bindings(prefix, m, done) + {b};
    forall i | 0 <= i < |order| ensures order[i].0 != b.0 {
      assert order[i] in Elements(order);
      if order[i] !in prior { SamePrefix(prefix, m, done, k, order[i]); }
    }
  }

  lemma SamePrefix(prefix: string, m: map<string, string>, done: set<string>, k: string, b: (string, string))
    requires done <= m.Keys && k !in done && b in Bindings(prefix, m, done)
    ensures b.0 != prefix + k
  {
    var j :| j in done && b == (prefix + j, m[j]);
    assert (prefix + j)[|prefix|..] == j && (prefix + k)[|prefix|..] == k;
  }

  /** What a rendering owes its inputs: whatever pieces the template consists of, the output
      shows each bound placeholder's value and leaves everything else as it was. */
  ghost predicate Renders(tmpl: string, ns: map<string, string>, request: map<string, string>, state: map<string, string>,
                          out: string)
  {
    PlainKeys(ns) && PlainKeys(request) && PlainKeys(state) && Clear(RenderBindings(ns, request, state)) ==>
      forall pieces {:trigger Flatten(pieces)} :: PlainPieces(pieces) && tmpl == Flatten(pieces)
        ==> out == ShownAll(ns, request, state, pieces)
  }

  lemma PlainPrefixed(prefix: string, m: map<string, string>)
    requires PlainName(prefix) && PlainKeys(m)
    ensures PlainNames(Bindings(prefix, m, m.Keys))
  {
  }

  lemma ReachedAll(tmpl: string, out: string, order: seq<(string, string)>,
                   ns: map<string, string>, request: map<string, string>, state: map<string, string>)
    requires Reached(tmpl, out, order, RenderBindings(ns, request, state))
    ensures Renders(tmpl, ns, request, state, out)
  {
    var all := RenderBindings(ns, request, state);
    if PlainKeys(ns) && PlainKeys(request) && PlainKeys(state) && Clear(all) {
      PlainPrefixed(NS, ns);
      PlainPrefixed(REQUEST, request);
      PlainPrefixed(STATE, state);
      forall pieces | PlainPieces(pieces) && tmpl == Flatten(pieces)
        ensures out == ShownAll(ns, request, state, pieces)
      {
        ReplaceEachIsSimultaneous(pieces, all, order);
        assert forall b :: b in order <==> b in Elements(order);
        FilledIsShown(ns, request, state, order, pieces);
      }
    }
  }

  const NS := "ns."
  const REQUEST := "request."
  const STATE := "state."

  lemma PrefixesApart()
    ensures forall j, k :: NS + j != REQUEST + k && NS + j != STATE + k && REQUEST + j != STATE + k
  {
    assert forall k :: (NS + k)[0] == 'n' && (REQUEST + k)[0] == 'r' && (STATE + k)[0] == 's';
  }

  /** The bindings of one map, each once. */
  ghost predicate Lists(order: seq<(string, string)>, prefix: string, m: map<string, string>) {
    DistinctNames(order) && Elements(order) == Bindings(prefix, m, m.Keys)
  }

  /** The bindings of one map in increasing order of their keys. */
  ghost predicate ListsSorted(order: seq<(string, string)>, prefix: string, m: map<string, string>) {
    && Lists(order, prefix, m)
    && exists keys: seq<string> ::
         && |keys| == |order| && (forall i :: 0 <= i < |order| ==> order[i].0 == prefix + keys[i])
         && (forall i, j :: 0 <= i < j < |keys| ==> StrLess(keys[i], keys[j]))
  }

  /** What every rendering is, clear or not: the template after replacing the namespaces in the order of their keys, then
      the request's fields in some order, then the state's in some order. */
  ghost predicate InTurn(tmpl: string, ns: map<string, string>, request: map<string, string>, state: map<string, string>,
                         out: string)
  {
    exists first, second, third ::
      ListsSorted(first, "ns.", ns) && Lists(second, "request.", request) && Lists(third, "state.", state)
      && out == ReplaceEach(tmpl, first + second + third)
  }

  lemma ListedOneMore(more: seq<(string, string)>, prefix: string, m: map<string, string>, done: set<string>, k: string)
    requires done <= m.Keys && k in m.Keys && Elements(more) == Bindings(prefix, m, done)
    ensures Elements(more + [(prefix + k, m[k])]) == Bindings(prefix, m, done + {k})
  {
    var b := (prefix + k, m[k]);
    assert Elements(more + [b]) == Elements(more) + {b};
    assert Bindings(prefix, m, done + {k}) == Bindings(prefix, m, done) + {b};
  }

  lemma PartDistinct(before: seq<(string, string)>, more: seq<(string, string)>)
    requires DistinctNames(before + more)
    ensures DistinctNames(more)
  {
    var order := before + more;
    assert forall i :: 0 <= i < |more| ==> more[i] == order[|before| + i];
  }

  lemma ReachedNone(tmpl: string, prefix: string, m: map<string, string>)
    ensures Reached(tmpl, tmpl, [], {} + Bindings(prefix, m, {}))
  {
  }

  lemma SortedReached(tmpl: string, out: string, order: seq<(string, string)>, prefix: string, m: map<string, string>,
                      keys: seq<string>)
    requires Reached(tmpl, out, order, {} + Bindings(prefix, m, m.Keys))
    requires |keys| == |order| && forall i :: 0 <= i < |order| ==> order[i].0 == prefix + keys[i]
    requires forall i, j :: 0 <= i < j < |keys| ==> StrLess(keys[i], keys[j])
    ensures Reached(tmpl, out, order, Bindings(prefix, m, m.Keys)) && ListsSorted(order, prefix, m)
  {
    assert {} + Bindings(prefix, m, m.Keys) == Bindings(prefix, m, m.Keys);
  }

  /** The loop over the namespaces: keys in sorted order. */
  method ReplaceSorted(tmpl: string, prefix: string, m: map<string, string>)
    returns (out: string, ghost order: seq<(string, string)>)
    ensures Reached(tmpl, out, order, Bindings(prefix, m, m.Keys))
    ensures ListsSorted(order, prefix, m)
  {
    hide Reached, Bindings, ListsSorted, StrLess, ReplaceAll;
    out, order := tmpl, [];
    var keys := SortStrings(m.Keys);
    SortedKeysSorted(m.Keys);
    SortedKeysDistinct(m.Keys);
    ReachedNone(tmpl, prefix, m);
    ghost var done: set<string> := {};
    var i := 0;
    while i < |keys|
      invariant 0 <= i <= |keys| && done <= m.Keys
      invariant forall k :: k in done <==> k in keys[..i]
      invariant |order| == i && forall j :: 0 <= j < i ==> order[j].0 == prefix + keys[j]
      invariant Reached(tmpl, out, order, {} + Bindings(prefix, m, done))
    {
      ReachedOneMore(tmpl, out, order, {}, prefix, m, done, keys[i]);
      out := ReplaceAll(out, Mark(prefix + keys[i]), m[keys[i]]);
      order, done, i := order + [(prefix + keys[i], m[keys[i]])], done + {keys[i]}, i + 1;
    }
    assert done == m.Keys;
    SortedReached(tmpl, out, order, prefix, m, keys);
  }

  /** The loop over the request or the state map: keys in any order. */
  method ReplaceUnordered(ghost tmpl: string, text: string, ghost before: seq<(string, string)>,
                          ghost prior: set<(string, string)>, prefix: string, m: map<string, string>)
    returns (out: string, ghost order: seq<(string, string)>, ghost more: seq<(string, string)>)
    requires Reached(tmpl, text, before, prior)
    requires forall b <- prior, k <- m :: b.0 != prefix + k
    ensures Reached(tmpl, out, order, prior + Bindings(prefix, m, m.Keys))
    ensures order == before + more && Lists(more, prefix, m)
  {
    out, order, more := text, before, [];
    var todo := m.Keys;
    ghost var done: set<string> := {};
    assert prior + Bindings(prefix, m, done) == prior;
    while todo != {}
      invariant done <= m.Keys && todo == m.Keys - done
      invariant Reached(tmpl, out, order, prior + Bindings(prefix, m, done))
      invariant order == before + more && Elements(more) == Bindings(prefix, m, done)
    {
      var k :| k in todo;
      ReachedOneMore(tmpl, out, order, prior, prefix, m, done, k);
      out := ReplaceAll(out, Mark(prefix + k), m[k]);
      ListedOneMore(more, prefix, m, done, k);
      order, more, done, todo := order + [(prefix + k, m[k])], more + [(prefix + k, m[k])], done + {k}, todo - {k};
    }
    assert done == m.Keys;
    PartDistinct(before, more);
  }

  /** Whatever the order in which the request and state maps are met, a template of plain
      pieces comes out with every bound placeholder replaced at once and every unbound
      one left as it was. */
  method RenderTemplate(tmpl: string, ns: map<string, string>, request: map<string, string>, state: map<string, string>)
    returns (out: string)
    ensures Renders(tmpl, ns, request, state, out)
    ensures InTurn(tmpl, ns, request, state, out)
  {
    ghost var order, second, third;
    PrefixesApart();
    out, order := ReplaceSorted(tmpl, NS, ns);
    ghost var first := order;
    out, order, second := ReplaceUnordered(tmpl, out, order, Bindings(NS, ns, ns.Keys), REQUEST, request);
    out, order, third := ReplaceUnordered(tmpl, out, order,
      Bindings(NS, ns, ns.Keys) + Bindings(REQUEST, request, request.Keys), STATE, state);
    ReachedAll(tmpl, out, order, ns, request, state);
    assert out == ReplaceEach(tmpl, first + second + third);
  }
}
