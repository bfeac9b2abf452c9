/** The sort key of `normalize` is injective: a tree is determined by its text, even when
    more text follows. So an unstable sort by this key cannot expose the input order. */
module SortKey {
  import opened Ordering
  import opened Json

  lemma SplitEqual(a: string, x: string, b: string, y: string)
    requires a + x == b + y && |a| == |b|
    ensures a == b && x == y
  {
    assert a == (a + x)[..|a|] && b == (b + y)[..|b|];
    assert x == (a + x)[|a|..] && y == (b + y)[|b|..];
  }

  lemma Assoc(a: string, b: string, c: string)
    ensures (a + b) + c == a + (b + c)
  {
  }

  lemma EscapeCharPrefix(c: char, x: string, d: char, y: string)
    requires EscapeChar(c) + x == EscapeChar(d) + y
    ensures c == d && x == y
  {
    var p, q := EscapeChar(c), EscapeChar(d);
    assert p[0] == (p + x)[0] && q[0] == (q + y)[0];
    if |p| > 1 && |q| > 1 {
      assert p[1] == (p + x)[1] && q[1] == (q + y)[1];
      if |p| == 6 && |q| == 6 {
        assert forall i | 0 <= i < 6 :: p[i] == (p + x)[i] && q[i] == (q + y)[i];
        assert p[2] == q[2] && p[3] == q[3] && p[4] == q[4] && p[5] == q[5];
      }
    }
    SplitEqual(p, x, q, y);
  }

  lemma EscapeLead(s: string)
    ensures Escape(s) != ""
    ensures Escape(s)[0] == '"' <==> s == ""
  {
  }

  lemma {:induction false} EscapePrefix(s: string, x: string, t: string, y: string)
    requires Escape(s) + x == Escape(t) + y
    ensures s == t && x == y
  {
    hide EscapeChar;
    EscapeLead(s);
    EscapeLead(t);
    assert Escape(s)[0] == (Escape(s) + x)[0] && Escape(t)[0] == (Escape(t) + y)[0];
    if s == "" {
      SplitEqual(Escape(s), x, Escape(t), y);
    } else {
      var s', t' := Escape(s[1..]), Escape(t[1..]);
      Assoc(EscapeChar(s[0]), s', x);
      Assoc(EscapeChar(t[0]), t', y);
      EscapeCharPrefix(s[0], s' + x, t[0], t' + y);
      EscapePrefix(s[1..], x, t[1..], y);
      assert s == [s[0]] + s[1..] && t == [t[0]] + t[1..];
    }
  }

  lemma QuotePrefix(s: string, x: string, t: string, y: string)
    requires Quote(s) + x == Quote(t) + y
    ensures s == t && x == y
  {
    hide Escape;
    Assoc("\"", Escape(s), x);
    Assoc("\"", Escape(t), y);
    SplitEqual("\"", Escape(s) + x, "\"", Escape(t) + y);
    EscapePrefix(s, x, t, y);
  }

  /** What may follow a value: nothing, or the end of the list or object it is in. */
  predicate Stop(x: string) {
    x == "" || x[0] == ',' || x[0] == ']' || x[0] == '}'
  }

  function NumberLength(s: string): nat {
    if s == "" || !NumberChar(s[0]) then 0 else 1 + NumberLength(s[1..])
  }

  lemma {:induction false} NumberEnd(n: string, x: string)
    requires Stop(x) && forall i | 0 <= i < |n| :: NumberChar(n[i])
    ensures NumberLength(n + x) == |n|
  {
    if n == "" {
      assert n + x == x;
    } else {
      NumberEnd(n[1..], x);
      assert (n + x)[1..] == n[1..] + x;
    }
  }

  lemma NumberPrefix(n: NumberText, x: string, m: NumberText, y: string)
    requires n + x == m + y && Stop(x) && Stop(y)
    ensures n == m && x == y
  {
    NumberEnd(n, x);
    NumberEnd(m, y);
    SplitEqual(n, x, m, y);
  }

  /** The first character of a text tells the kind of its tree. */
  lemma Lead(j: Json)
    ensures Text(j) != ""
    ensures var c := Text(j)[0];
      && (j.Null? <==> c == 'n')
      && (j.Bool? <==> c == 't' || c == 'f')
      && (j.Num? <==> NumberChar(c))
      && (j.Str? <==> c == '"')
      && (j.Arr? <==> c == '[')
      && (j.Obj? <==> c == '{')
  {
  }

  /** Unique decodability: the text of a tree is not a proper prefix of another text. */
  lemma {:induction false} TextPrefix(a: Json, x: string, b: Json, y: string)
    requires Text(a) + x == Text(b) + y && Stop(x) && Stop(y)
    ensures a == b && x == y
    decreases a, 2, 0, 1
  {
    Lead(a);
    Lead(b);
    assert Text(a)[0] == (Text(a) + x)[0] && Text(b)[0] == (Text(b) + y)[0];
    match a
    case Null => SplitEqual(Text(a), x, Text(b), y);
    case Bool(_) => SplitEqual(Text(a), x, Text(b), y);
    case Num(n) => NumberPrefix(n, x, b.n, y);
    case Str(s) => QuotePrefix(s, x, b.s, y);
    case Arr(xs) => ListPrefix(xs, x, b.elems, y);
    case Obj(f) => ObjectPrefix(a, x, b, y);
  }

  lemma {:induction false} RestPrefix(xs: seq<Json>, x: string, ys: seq<Json>, y: string)
    requires TextRest(xs) + x == TextRest(ys) + y
    ensures xs == ys && x == y
    decreases xs, 1, |xs|
  {
    var p, q := TextRest(xs), TextRest(ys);
    assert p[0] == (p + x)[0] && q[0] == (q + y)[0];
    if xs == [] || ys == [] {
      SplitEqual(p, x, q, y);
    } else {
      var p', q' := TextRest(xs[1..]) + x, TextRest(ys[1..]) + y;
      assert p + x == "," + (Text(xs[0]) + p') && q + y == "," + (Text(ys[0]) + q');
      SplitEqual(",", Text(xs[0]) + p', ",", Text(ys[0]) + q');
      TextPrefix(xs[0], p', ys[0], q');
      RestPrefix(xs[1..], x, ys[1..], y);
      assert xs == [xs[0]] + xs[1..] && ys == [ys[0]] + ys[1..];
    }
  }

  lemma {:induction false} ListPrefix(xs: seq<Json>, x: string, ys: seq<Json>, y: string)
    requires Text(Arr(xs)) + x == Text(Arr(ys)) + y
    ensures xs == ys && x == y
    decreases xs, 2, 0
  {
    var p, q := Text(Arr(xs)), Text(Arr(ys));
    assert p[1] == (p + x)[1] && q[1] == (q + y)[1];
    if xs != [] { Lead(xs[0]); assert p[1] == Text(xs[0])[0]; }
    if ys != [] { Lead(ys[0]); assert q[1] == Text(ys[0])[0]; }
    if xs == [] || ys == [] {
      SplitEqual(p, x, q, y);
    } else {
      var p', q' := TextRest(xs[1..]) + x, TextRest(ys[1..]) + y;
      assert p + x == "[" + (Text(xs[0]) + p') && q + y == "[" + (Text(ys[0]) + q');
      SplitEqual("[", Text(xs[0]) + p', "[", Text(ys[0]) + q');
      TextPrefix(xs[0], p', ys[0], q');
      RestPrefix(xs[1..], x, ys[1..], y);
      assert xs == [xs[0]] + xs[1..] && ys == [ys[0]] + ys[1..];
    }
  }

  lemma {:induction false} FieldPrefix(k: string, v: Json, p: string, l: string, w: Json, q: string)
    requires Field(k, v) + p == Field(l, w) + q && Stop(p) && Stop(q)
    ensures k == l && v == w && p == q
    decreases v, 3, 0
  {
    hide Quote, Text;
    var p', q' := Text(v) + p, Text(w) + q;
    Assoc(Quote(k) + ":", Text(v), p);
    Assoc(Quote(k), ":", p');
    Assoc(Quote(l) + ":", Text(w), q);
    Assoc(Quote(l), ":", q');
    QuotePrefix(k, ":" + p', l, ":" + q');
    SplitEqual(":", p', ":", q');
    TextPrefix(v, p, w, q);
  }

  ghost predicate HasKeys(a: Json, ks: seq<string>) {
    a.Obj? && forall k | k in ks :: k in a.fields
  }

  lemma {:induction false} FieldsRestPrefix(a: Json, ks: seq<string>, x: string, b: Json, ls: seq<string>, y: string)
    requires HasKeys(a, ks) && HasKeys(b, ls)
    requires FieldsRest(a, ks) + x == FieldsRest(b, ls) + y
    ensures ks == ls && x == y && forall k | k in ks :: a.fields[k] == b.fields[k]
    decreases a, 1, |ks|, 1
  {
    hide Field;
    var p, q := FieldsRest(a, ks), FieldsRest(b, ls);
    assert p[0] == (p + x)[0] && q[0] == (q + y)[0];
    if ks == [] {
      SplitEqual(p, x, q, y);
    } else {
      FirstFieldPrefix(a, ks, x, b, ls, y, ",");
    }
  }

  /** A non-empty list of entries after an opening character. */
  lemma {:induction false} FirstFieldPrefix(a: Json, ks: seq<string>, x: string, b: Json, ls: seq<string>, y: string,
                                            open: string)
    requires HasKeys(a, ks) && HasKeys(b, ls) && ks != [] && ls != []
    requires open + Field(ks[0], a.fields[ks[0]]) + FieldsRest(a, ks[1..]) + x
          == open + Field(ls[0], b.fields[ls[0]]) + FieldsRest(b, ls[1..]) + y
    ensures ks == ls && x == y && forall k | k in ks :: a.fields[k] == b.fields[k]
    decreases a, 1, |ks|, 0
  {
    var k, l := ks[0], ls[0];
    var f, g := Field(k, a.fields[k]), Field(l, b.fields[l]);
    var r, s := FieldsRest(a, ks[1..]), FieldsRest(b, ls[1..]);
    assert Stop(r + x) && Stop(s + y);
    hide Field, FieldsRest;
    Assoc(open + f, r, x);
    Assoc(open, f, r + x);
    Assoc(open + g, s, y);
    Assoc(open, g, s + y);
    SplitEqual(open, f + (r + x), open, g + (s + y));
    FieldPrefix(k, a.fields[k], r + x, l, b.fields[l], s + y);
    FieldsRestPrefix(a, ks[1..], x, b, ls[1..], y);
    assert ks == [k] + ks[1..] && ls == [l] + ls[1..];
  }

  lemma ObjectLead(a: Json, x: string)
    requires a.Obj?
    ensures |Text(a)| >= 2
    ensures (Text(a) + x)[1] == (if a.fields == map[] then '}' else '"')
  {
    var ks := SortedKeys(a.fields.Keys);
    assert |ks| == |a.fields.Keys|;
    if ks != [] {
      FieldLead(ks[0], a.fields[ks[0]]);
      assert ks[0] in a.fields;
    }
  }

  lemma {:induction false} ObjectPrefix(a: Json, x: string, b: Json, y: string)
    requires a.Obj? && b.Obj? && Text(a) + x == Text(b) + y
    ensures a == b && x == y
    decreases a, 2, 0, 0
  {
    hide Field, FieldsRest;
    ObjectLead(a, x);
    ObjectLead(b, y);
    var ks, ls := SortedKeys(a.fields.Keys), SortedKeys(b.fields.Keys);
    assert |ks| == |a.fields| && |ls| == |b.fields|;
    if ks == [] {
      SplitEqual(Text(a), x, Text(b), y);
    } else {
      FirstFieldPrefix(a, ks, x, b, ls, y, "{");
      SameFields(a.fields, b.fields);
    }
  }

  lemma SameFields(f: Object, g: Object)
    requires SortedKeys(f.Keys) == SortedKeys(g.Keys)
    requires forall k | k in SortedKeys(f.Keys) :: f[k] == g[k]
    ensures f == g
  {
    forall k ensures k in f <==> k in g {
      assert k in SortedKeys(f.Keys) <==> k in f.Keys;
      assert k in SortedKeys(g.Keys) <==> k in g.Keys;
    }
  }

  lemma FieldLead(key: string, value: Json)
    ensures Field(key, value) != "" && Field(key, value)[0] == '"'
  {
  }

  /** `jsonString` gives different texts to different trees. */
  lemma TextInjective(a: Json, b: Json)
    ensures Text(a) == Text(b) <==> a == b
  {
    if Text(a) == Text(b) {
      assert Text(a) + "" == Text(b) + "";
      TextPrefix(a, "", b, "");
    }
  }
}
