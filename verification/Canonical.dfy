/**
  The text that event fingerprints are computed from (cm/types.go): payload
  entries in key order, each written as key ':' value ';'.
 */
module Canonical {
  import opened Common
  import opened Ordering
  import opened Splitting

  /**
    A payload value. A number carries the text Go formats it as; `Opaque`
    stands for every type the encoder does not know (lists, nested maps,
    integers, nil).
   */
  datatype Value = Str(s: string) | Number(formatted: string) | Bool(b: bool) | Opaque(id: int)

  type Payload = map<string, Value>

  /** interfaceToString. */
  function ToText(v: Value): (t: string) {
    match v
    case Str(s) => s
    case Number(f) => f
    case Bool(b) => if b then "true" else "false"
    case Opaque(_) => ""
  }

  /** `ks` lists the keys of `m` in increasing order. */
  ghost predicate KeyList(ks: seq<Text>, m: Payload) {
    && Strict(ks)
    && (forall k :: Text(k) in ks <==> k in m)
  }

  /** The encoding of the listed entries. */
  function Render(m: Payload, ks: seq<Text>): (t: string)
    requires forall i :: 0 <= i < |ks| ==> ks[i].s in m
  {
    if ks == [] then ""
    else ks[0].s + ":" + ToText(m[ks[0].s]) + ";" + Render(m, ks[1..])
  }

  lemma KeysInPayload(ks: seq<Text>, m: Payload)
    requires KeyList(ks, m)
    ensures forall i :: 0 <= i < |ks| ==> ks[i].s in m
  {
    forall i | 0 <= i < |ks| ensures ks[i].s in m {
      assert ks[i] == Text(ks[i].s) && ks[i] in ks;
    }
  }

  /** Map iteration order cannot matter: a payload has only one key list. */
  lemma KeyListUnique(a: seq<Text>, b: seq<Text>, m: Payload)
    requires KeyList(a, m) && KeyList(b, m)
    ensures a == b
  {
    forall x ensures x in a <==> x in b {
      assert x == Text(x.s);
    }
    StrictUnique(a, b);
  }

  /**
    sortedKeys: the keys in whatever order the map yields them (`:|`), then
    sorted. The result is the key list.
   */
  method SortedKeys(m: Payload) returns (ks: seq<Text>)
    ensures KeyList(ks, m)
  {
    var keys: seq<Text> := [];
    var rest := m.Keys;
    while rest != {}
      invariant rest <= m.Keys
      invariant forall k :: Text(k) in keys <==> k in m && k !in rest
      invariant forall i, j :: 0 <= i < j < |keys| ==> keys[i] != keys[j]
      decreases |rest|
    {
      var k :| k in rest;
      assert Text(k) !in keys;
      keys := keys + [Text(k)];
      rest := rest - {k};
    }
    ks := Sort(keys);
    SortedDistinct(keys);
  }

  lemma SortedDistinct(s: seq<Text>)
    requires forall i, j :: 0 <= i < j < |s| ==> s[i] != s[j]
    ensures Strict(Sort(s)) && forall x :: x in Sort(s) <==> x in s
  {
    SortSorts(s);
    var r := Sort(s);
    forall x ensures x in r <==> x in s {
      assert x in r <==> x in multiset(r);
      assert x in s <==> x in multiset(s);
    }
    forall i, j | 0 <= i < j < |r| ensures r[i] != r[j] {
      if r[i] == r[j] {
        CountTwo(r, i, j);
        DistinctCountOne(s, r[i]);
      }
    }
  }

  lemma CountTwo(r: seq<Text>, i: nat, j: nat)
    requires i < j < |r| && r[i] == r[j]
    ensures multiset(r)[r[i]] >= 2
  {
    assert r == r[..j] + [r[j]] + r[j + 1..];
    assert r[..j][i] == r[i];
    assert r[i] in multiset(r[..j]);
  }

  lemma {:induction false} DistinctCountOne(s: seq<Text>, x: Text)
    requires forall i, j :: 0 <= i < j < |s| ==> s[i] != s[j]
    ensures multiset(s)[x] <= 1
  {
    if s != [] {
      assert s == [s[0]] + s[1..];
      DistinctCountOne(s[1..], x);
      if x == s[0] {
        assert x !in s[1..];
        assert multiset(s[1..])[x] == 0;
      }
    }
  }

  /** `t` is the canonical text of `m`. */
  ghost predicate IsText(t: string, m: Payload) {
    exists ks :: KeyList(ks, m) && (KeysInPayload(ks, m); t == Render(m, ks))
  }

  /** The text depends on the payload alone. */
  lemma TextUnique(t: string, u: string, m: Payload)
    requires IsText(t, m) && IsText(u, m)
    ensures t == u
  {
    var a :| KeyList(a, m) && (KeysInPayload(a, m); t == Render(m, a));
    var b :| KeyList(b, m) && (KeysInPayload(b, m); u == Render(m, b));
    KeyListUnique(a, b, m);
  }

  /** A text with one more entry written to it. */
  function WithEntry(t: string, k: string, v: Value): (u: string) {
    t + (k + ":" + ToText(v) + ";")
  }

  /** The text holds the first `i` entries. */
  ghost predicate Written(t: string, m: Payload, ks: seq<Text>, i: nat)
    requires i <= |ks| && forall j :: 0 <= j < |ks| ==> ks[j].s in m
  {
    t + Render(m, ks[i..]) == Render(m, ks)
  }

  lemma WrittenNext(t: string, m: Payload, ks: seq<Text>, i: nat)
    requires i < |ks| && (forall j :: 0 <= j < |ks| ==> ks[j].s in m) && Written(t, m, ks, i)
    ensures Written(WithEntry(t, ks[i].s, m[ks[i].s]), m, ks, i + 1)
  {
    assert ks[i..][1..] == ks[i + 1..];
    var entry, rest := ks[i].s + ":" + ToText(m[ks[i].s]) + ";", Render(m, ks[i + 1..]);
    assert Render(m, ks[i..]) == entry + rest;
    hide Render;
    assert t + (entry + rest) == (t + entry) + rest;
  }

  lemma WrittenEnds(t: string, m: Payload, ks: seq<Text>)
    requires forall j :: 0 <= j < |ks| ==> ks[j].s in m
    ensures Written("", m, ks, 0)
    ensures Written(t, m, ks, |ks|) <==> t == Render(m, ks)
  {
    assert ks[0..] == ks && ks[|ks|..] == [];
    assert "" + Render(m, ks) == Render(m, ks) && t + "" == t;
  }

  /** canonicalJSON. */
  method CanonicalJSON(m: Payload) returns (t: string)
    ensures IsText(t, m)
  {
    var ks := SortedKeys(m);
    KeysInPayload(ks, m);
    hide Render, WithEntry, Written, KeyList;
    t := "";
    WrittenEnds(t, m, ks);
    var i := 0;
    while i < |ks|
      invariant 0 <= i <= |ks| && Written(t, m, ks, i)
    {
      WrittenNext(t, m, ks, i);
      t := WithEntry(t, ks[i].s, m[ks[i].s]);
      i := i + 1;
    }
    WrittenEnds(t, m, ks);
  }

  // ---- reading a text back ---------------------------------------------------

  /** A reader of canonical texts: key up to ':', value up to ';', again. */
  function Parse(t: string): (r: Option<map<string, string>>)
    decreases |t|
  {
    if t == [] then Some(map[])
    else
      match Split(t, ':')
      case None => None
      case Some((k, rest)) =>
        match Split(rest, ';')
        case None => None
        case Some((v, more)) =>
          match Parse(more)
          case None => None
          case Some(m) => Some(m[k := v])
  }

  predicate StringValued(m: Payload) {
    forall k :: k in m ==> m[k].Str?
  }

  /** No key holds a ':' and no value a ';'. */
  predicate Plain(m: map<string, string>) {
    forall k :: k in m ==> ':' !in k && ';' !in m[k]
  }

  function Strings(m: Payload): (r: map<string, string>)
    requires StringValued(m)
  {
    map k | k in m :: m[k].s
  }

  lemma {:induction false} ParsedIsPlain(t: string)
    ensures Parse(t).Some? ==> Plain(Parse(t).value)
    decreases |t|
  {
    if t != [] && Split(t, ':').Some? {
      var rest := Split(t, ':').value.1;
      if Split(rest, ';').Some? {
        ParsedIsPlain(Split(rest, ';').value.1);
      }
    }
  }

  lemma ParseEntry(k: string, v: string, more: string)
    requires ':' !in k && ';' !in v && Parse(more).Some?
    ensures Parse(k + ":" + v + ";" + more) == Some(Parse(more).value[k := v])
  {
    var rest, t := v + ";" + more, k + ":" + v + ";" + more;
    assert t == k + [':'] + rest && rest == v + [';'] + more;
    SplitFinds(k, ':', rest);
    SplitFinds(v, ';', more);
    hide Split;
    assert t != [];
  }

  lemma {:induction false} ParseRendered(m: Payload, ks: seq<Text>)
    requires StringValued(m) && Plain(Strings(m))
    requires forall i :: 0 <= i < |ks| ==> ks[i].s in m
    ensures Parse(Render(m, ks)).Some?
    ensures var r := Parse(Render(m, ks)).value;
            forall k :: (k in r <==> Text(k) in ks) && (k in r ==> r[k] == m[k].s)
  {
    if ks != [] {
      var k, v := ks[0].s, m[ks[0].s].s;
      ParseRendered(m, ks[1..]);
      assert Strings(m)[k] == v;
      assert Render(m, ks) == k + ":" + v + ";" + Render(m, ks[1..]);
      hide Parse, Render;
      ParseEntry(k, v, Render(m, ks[1..]));
      assert ks == [Text(k)] + ks[1..];
    }
  }

  /**
    Main theorem: for string-valued payloads the reader recovers the payload
    exactly when no key holds a ':' and no value a ';'.
   */
  lemma RecoveredExactlyWhenPlain(m: Payload, t: string)
    requires StringValued(m) && IsText(t, m)
    ensures Parse(t) == Some(Strings(m)) <==> Plain(Strings(m))
  {
    hide Parse, Render, Strict;
    ParsedIsPlain(t);
    if Plain(Strings(m)) {
      var ks: seq<Text> :| KeyList(ks, m) && (KeysInPayload(ks, m); t == Render(m, ks));
      KeysInPayload(ks, m);
      ParseRendered(m, ks);
      var r := Parse(t).value;
      assert r.Keys == Strings(m).Keys;
      assert r == Strings(m);
    }
  }

  /** So distinct plain payloads have distinct texts. */
  lemma PlainTextsDistinct(m: Payload, n: Payload, t: string)
    requires StringValued(m) && StringValued(n) && Plain(Strings(m)) && Plain(Strings(n))
    requires IsText(t, m) && IsText(t, n)
    ensures m == n
  {
    hide Parse, IsText, Plain;
    RecoveredExactlyWhenPlain(m, t);
    RecoveredExactlyWhenPlain(n, t);
    assert Strings(m) == Strings(n);
    assert m.Keys == Strings(m).Keys && n.Keys == Strings(n).Keys;
    forall k | k in m ensures m[k] == n[k] {
      assert Strings(m)[k] == Strings(n)[k];
    }
  }

  lemma {:induction false} RenderBlind(m: Payload, n: Payload, ks: seq<Text>)
    requires forall i :: 0 <= i < |ks| ==> ks[i].s in m && ks[i].s in n && ToText(m[ks[i].s]) == ToText(n[ks[i].s])
    ensures Render(m, ks) == Render(n, ks)
  {
    if ks != [] {
      RenderBlind(m, n, ks[1..]);
    }
  }

  /**
    The other limit: the text sees a value only through ToText. Payloads that
    differ only there, say Bool(true) against Str("true") or any two values of
    unknown type, share one text and hence one fingerprint.
   */
  lemma TextBlindToTypes(m: Payload, n: Payload, t: string)
    requires m.Keys == n.Keys && forall k :: k in m ==> ToText(m[k]) == ToText(n[k])
    requires IsText(t, m)
    ensures IsText(t, n)
  {
    var ks: seq<Text> :| KeyList(ks, m) && (KeysInPayload(ks, m); t == Render(m, ks));
    KeysInPayload(ks, m);
    assert KeyList(ks, n);
    RenderBlind(m, n, ks);
  }

  lemma SingleText(k: string, v: string)
    ensures IsText(k + ":" + v + ";", map[k := Str(v)])
  {
    OneEntry(k, Str(v));
    hide IsText;
  }

  /** A one-entry payload shows its value so: a string as it is, a number as formatted, a boolean by name, all else not at all. */
  lemma SingleTexts(k: string, v: string, id: int)
    ensures IsText(k + ":" + v + ";", map[k := Str(v)])
    ensures IsText(k + ":" + v + ";", map[k := Number(v)])
    ensures IsText(k + ":" + "true" + ";", map[k := Bool(true)])
    ensures IsText(k + ":" + "false" + ";", map[k := Bool(false)])
    ensures IsText(k + ":" + "" + ";", map[k := Opaque(id)])
  {
    OneEntry(k, Str(v));
    OneEntry(k, Number(v));
    OneEntry(k, Bool(true));
    OneEntry(k, Bool(false));
    OneEntry(k, Opaque(id));
    hide IsText;
  }

  lemma OneEntry(k: string, v: Value)
    ensures IsText(k + ":" + ToText(v) + ";", map[k := v])
  {
    var m: Payload, ks := map[k := v], [Text(k)];
    assert KeyList(ks, m);
    assert ks[1..] == [];
    assert Render(m, ks) == k + ":" + ToText(v) + ";" + "";
    assert k + ":" + ToText(v) + ";" + "" == k + ":" + ToText(v) + ";";
  }

  /** Every ':' in a key makes a collision of two different one-entry payloads. */
  lemma ColonCollision(a: string, b: string, v: string)
    ensures var t := a + ":" + b + ":" + v + ";";
            IsText(t, map[a + ":" + b := Str(v)]) && IsText(t, map[a := Str(b + ":" + v)])
    ensures map[a + ":" + b := Str(v)] != map[a := Str(b + ":" + v)]
  {
    SingleText(a + ":" + b, v);
    SingleText(a, b + ":" + v);
    assert a + ":" + (b + ":" + v) + ";" == a + ":" + b + ":" + v + ";";
    var m: Payload := map[a := Str(b + ":" + v)];
    assert |a + ":" + b| > |a|;
    assert a + ":" + b !in m;
  }

  // ---- when a text determines its payload ------------------------------------

  /** The text holds at most one ':'. */
  predicate OneColon(t: string) {
    forall i, j :: 0 <= i < j < |t| ==> !(t[i] == ':' && t[j] == ':')
  }

  /** No other string-valued payload has the text. */
  ghost predicate Determines(t: string, m: Payload) {
    forall n :: StringValued(n) && IsText(t, n) ==> n == m
  }

  lemma EndsInSemicolon(m: Payload, ks: seq<Text>)
    requires ks != [] && forall i :: 0 <= i < |ks| ==> ks[i].s in m
    ensures var t := Render(m, ks); t != [] && t[|t| - 1] == ';'
    decreases |ks|
  {
    if |ks| > 1 {
      EndsInSemicolon(m, ks[1..]);
    }
  }

  lemma CutAtColons(t: string, i: nat, j: nat)
    requires i < j < |t| - 1 && t[i] == ':' && t[j] == ':' && t[|t| - 1] == ';'
    ensures t == t[..i] + ":" + t[i + 1..j] + ":" + t[j + 1..|t| - 1] + ";"
  {
    var n := |t| - 1;
    assert t == t[..i] + [t[i]] + t[i + 1..];
    assert t[i + 1..] == t[i + 1..j] + [t[j]] + t[j + 1..];
    assert t[j + 1..] == t[j + 1..n] + [t[n]];
  }

  lemma Ambiguous(a: string, b: string, v: string, m: Payload)
    ensures !Determines(a + ":" + b + ":" + v + ";", m)
  {
    ColonCollision(a, b, v);
    var x: Payload, y: Payload := map[a + ":" + b := Str(v)], map[a := Str(b + ":" + v)];
    hide IsText;
    assert StringValued(x) && StringValued(y) && x != y;
  }

  /** Two colons leave a choice of where the key ends, so some other payload has the text. */
  lemma TwoColonsCollide(t: string, i: nat, j: nat, m: Payload)
    requires i < j < |t| - 1 && t[i] == ':' && t[j] == ':' && t[|t| - 1] == ';'
    ensures !Determines(t, m)
  {
    CutAtColons(t, i, j);
    hide Determines;
    Ambiguous(t[..i], t[i + 1..j], t[j + 1..|t| - 1], m);
  }

  /** A second key, or a ':' in the only one, is a second ':' in the text. */
  lemma SecondColon(m: Payload, ks: seq<Text>)
    requires ks != [] && forall i :: 0 <= i < |ks| ==> ks[i].s in m
    ensures |ks| > 1 || ':' in ks[0].s ==> !OneColon(Render(m, ks))
  {
    var t := Render(m, ks);
    var k, v, more := ks[0].s, ToText(m[ks[0].s]), Render(m, ks[1..]);
    assert t == k + ":" + v + ";" + more;
    assert t[|k|] == ':';
    if ':' in k {
      var i :| 0 <= i < |k| && k[i] == ':';
      assert t[i] == ':';
    } else if |ks| > 1 {
      var k' := ks[1].s;
      assert more[|k'|] == ':';
      assert t[|k| + 1 + |v| + 1 + |k'|] == ':';
    }
  }

  /** With at most one ':' a text is empty, or one key and its value. */
  lemma FewEntries(t: string, m: Payload)
    requires StringValued(m) && IsText(t, m) && OneColon(t)
    ensures t == "" ==> m == map[]
    ensures t != "" ==> exists k, v :: ':' !in k && t == k + [':'] + (v + ";") && m == map[k := Str(v)]
  {
    var ks: seq<Text> :| KeyList(ks, m) && (KeysInPayload(ks, m); t == Render(m, ks));
    KeysInPayload(ks, m);
    if ks == [] {
      assert m == map[] by {
        assert forall k :: k in m ==> Text(k) in ks;
      }
    } else {
      SecondColon(m, ks);
      var k := ks[0].s;
      var v := m[k].s;
      assert ks[1..] == [];
      assert Render(m, ks) == k + ":" + v + ";" + "";
      assert t == k + [':'] + (v + ";");
      forall x | x in m ensures x == k {
        assert Text(x) in ks;
      }
      assert m == map[k := Str(v)];
    }
  }

  lemma OneSplit(k: string, v: string, k': string, v': string)
    requires ':' !in k && ':' !in k' && k + [':'] + (v + ";") == k' + [':'] + (v' + ";")
    ensures k == k' && v == v'
  {
    SplitFinds(k, ':', v + ";");
    SplitFinds(k', ':', v' + ";");
    assert v == (v + ";")[..|v + ";"| - 1] == v';
  }

  /**
    Main theorem: exactly when the text of a string-valued payload determines
    it: the text holds at most one ':'.
   */
  lemma DeterminedExactly(t: string, m: Payload)
    requires StringValued(m) && IsText(t, m)
    ensures Determines(t, m) <==> OneColon(t)
  {
    if OneColon(t) {
      forall n | StringValued(n) && IsText(t, n) ensures n == m {
        FewEntries(t, m);
        FewEntries(t, n);
        if t != "" {
          hide IsText, OneColon;
          var k, v :| ':' !in k && t == k + [':'] + (v + ";") && m == map[k := Str(v)];
          var k', v' :| ':' !in k' && t == k' + [':'] + (v' + ";") && n == map[k' := Str(v')];
          OneSplit(k, v, k', v');
        }
      }
    } else {
      var ks: seq<Text> :| KeyList(ks, m) && (KeysInPayload(ks, m); t == Render(m, ks));
      KeysInPayload(ks, m);
      assert ks != [];
      EndsInSemicolon(m, ks);
      var i, j :| 0 <= i < j < |t| && t[i] == ':' && t[j] == ':';
      TwoColonsCollide(t, i, j, m);
    }
  }

  /** A payload that holds nothing, or one key and value without ':'. */
  ghost predicate Lone(m: Payload)
    requires StringValued(m)
  {
    m == map[] || exists k, v :: m == map[k := Str(v)] && ':' !in k && ':' !in v
  }

  lemma ColonOnlyAt(k: string, v: string)
    requires ':' !in k && ':' !in v
    ensures OneColon(k + ":" + v + ";")
  {
    var t := k + ":" + v + ";";
    forall i | 0 <= i < |t| && t[i] == ':' ensures i == |k| {
    }
  }

  lemma EmptyText()
    ensures IsText("", map[])
  {
    var m: Payload := map[];
    assert KeyList([], m) && Render(m, []) == "";
  }

  /**
    The same in terms of the payload: among string-valued payloads only the
    empty one and single entries without ':' are told apart from all others.
   */
  lemma DeterminedExactlyWhenLone(t: string, m: Payload)
    requires StringValued(m) && IsText(t, m)
    ensures Determines(t, m) <==> Lone(m)
  {
    DeterminedExactly(t, m);
    if OneColon(t) {
      FewEntries(t, m);
      if t != "" {
        hide IsText;
        var k, v :| ':' !in k && t == k + [':'] + (v + ";") && m == map[k := Str(v)];
        assert t[|k|] == ':';
        forall i | 0 <= i < |v| ensures v[i] != ':' {
          assert t[|k| + 1 + i] == v[i];
        }
      }
    }
    if Lone(m) {
      if m == map[] {
        EmptyText();
        TextUnique(t, "", m);
      } else {
        var k, v :| m == map[k := Str(v)] && ':' !in k && ':' !in v;
        SingleText(k, v);
        TextUnique(t, k + ":" + v + ";", m);
        ColonOnlyAt(k, v);
      }
    }
  }

  // ---- payloads of any values ------------------------------------------------------

  /** The payload with every value replaced by the string it is shown as. */
  function Shown(m: Payload): (n: Payload)
    ensures StringValued(n)
  {
    map k | k in m :: Str(ToText(m[k]))
  }

  lemma ShownText(m: Payload, t: string)
    requires IsText(t, m)
    ensures IsText(t, Shown(m))
  {
    TextBlindToTypes(m, Shown(m), t);
  }

  /**
    Payloads of any values without ':' in keys and ';' in what the values show as:
    equal texts mean the same keys, and values that show the same. So a payload
    that differs in one string, one number or one boolean has another text.
   */
  lemma PlainTextsShowValues(m: Payload, n: Payload, t: string)
    requires Plain(Strings(Shown(m))) && Plain(Strings(Shown(n))) && IsText(t, m) && IsText(t, n)
    ensures m.Keys == n.Keys && forall k :: k in m ==> ToText(m[k]) == ToText(n[k])
    ensures forall k :: k in m ==> SameIfAlike(m[k], n[k])
  {
    ShownText(m, t);
    ShownText(n, t);
    hide IsText, Plain, Strings, Shown, ToText;
    PlainTextsDistinct(Shown(m), Shown(n), t);
    ShownEqual(m, n);
    forall k | k in m ensures SameIfAlike(m[k], n[k]) {
      ShowSame(m[k], n[k]);
    }
  }

  lemma ShownEqual(m: Payload, n: Payload)
    requires Shown(m) == Shown(n)
    ensures m.Keys == n.Keys && forall k :: k in m ==> ToText(m[k]) == ToText(n[k])
  {
    hide ToText;
    assert m.Keys == Shown(m).Keys && n.Keys == Shown(n).Keys;
    forall k | k in m ensures ToText(m[k]) == ToText(n[k]) {
      assert Shown(m)[k] == Shown(n)[k];
    }
  }

  predicate SameIfAlike(v: Value, w: Value) {
    (v.Str? && w.Str?) || (v.Number? && w.Number?) || (v.Bool? && w.Bool?) ==> v == w
  }

  lemma ShowSame(v: Value, w: Value)
    requires ToText(v) == ToText(w)
    ensures SameIfAlike(v, w)
  {
    if v.Bool? && w.Bool? {
      assert |ToText(v)| == (if v.b then 4 else 5) && |ToText(w)| == (if w.b then 4 else 5);
    }
  }
}
