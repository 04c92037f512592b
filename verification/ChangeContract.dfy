/**
 The canonical serialiser behind contract hashes in src/lib/changeContract.ts: `stable`
 prints a JSON value with the members of every object sorted by key.
 */
module ChangeContract {
  import opened Hashing
  import opened Wrappers

  /**
   A JSON value. A number is its printed token; an object is its list of members in
   insertion order.
   */
  datatype Json =
    | Null
    | Bool(value: bool)
    | Num(token: string)
    | Str(text: string)
    | Arr(items: seq<Json>)
    | Obj(entries: seq<(string, Json)>)

  predicate NumberChar(c: char) {
    '0' <= c <= '9' || c == '-' || c == '+' || c == '.' || c == 'e' || c == 'E'
  }

  predicate NumberToken(token: string) {
    token != "" && ('0' <= token[0] <= '9' || token[0] == '-') &&
    forall i :: 0 <= i < |token| ==> NumberChar(token[i])
  }

  predicate DistinctKeys<V>(es: seq<(string, V)>) {
    forall i, j :: 0 <= i < j < |es| ==> es[i].0 != es[j].0
  }

  /** Number tokens are numbers and no object repeats a key, at every depth. */
  predicate Valid(v: Json)
    decreases v
  {
    match v
    case Num(token) => NumberToken(token)
    case Arr(items) => forall i | 0 <= i < |items| :: Valid(items[i])
    case Obj(entries) => DistinctKeys(entries) && forall i | 0 <= i < |entries| :: Valid(entries[i].1)
    case _ => true
  }

  function Lookup(es: seq<(string, Json)>, key: string): (v: Option<Json>)
    ensures v.Some? ==> (key, v.value) in es
  {
    if es == [] then None else if es[0].0 == key then Some(es[0].1) else Lookup(es[1..], key)
  }

  /**
   Equality up to the order of object members, at every depth: objects are the same when
   they have the same keys, and the same value under each.
   */
  ghost predicate Same(a: Json, b: Json)
    decreases a
  {
    match (a, b)
    case (Arr(xs), Arr(ys)) => |xs| == |ys| && forall i | 0 <= i < |xs| :: Same(xs[i], ys[i])
    case (Obj(xs), Obj(ys)) =>
      && (forall j | 0 <= j < |ys| :: Lookup(xs, ys[j].0).Some?)
      && (forall i | 0 <= i < |xs| ::
            Lookup(ys, xs[i].0).Some? && Same(xs[i].1, Lookup(ys, xs[i].0).value))
    case _ => a == b
  }

  // ----- JSON.stringify on strings -----

  function HexDigit(n: nat): char
    requires n < 16
  {
    "0123456789abcdef"[n]
  }

  /** One character inside a JSON string literal (ECMAScript, section 25.5.2.3). */
  function EscapeChar(c: char): (r: string)
    ensures r != "" && r[0] != '"'
  {
    if c == '"' then "\\\""
    else if c == '\\' then "\\\\"
    else if c == '\U{08}' then "\\b"
    else if c == '\t' then "\\t"
    else if c == '\n' then "\\n"
    else if c == '\U{0C}' then "\\f"
    else if c == '\r' then "\\r"
    else if c < ' ' then ['\\', 'u', '0', '0', HexDigit(c as int / 16), HexDigit(c as int % 16)]
    else [c]
  }

  function Escape(s: string): string {
    if s == "" then "" else EscapeChar(s[0]) + Escape(s[1..])
  }

  function Quote(s: string): string {
    "\"" + Escape(s) + "\""
  }

  // ----- the serialiser -----

  /** `a.localeCompare(b) < 0`; what the comparison is like is stated where it matters. */
  type Less = (string, string) -> bool

  /** Puts an entry in front of the first one that does not sort strictly before it. */
  function Insert(e: (string, string), es: seq<(string, string)>, lt: Less): (r: seq<(string, string)>)
    ensures multiset(r) == multiset(es) + multiset{e}
  {
    if es == [] || !lt(es[0].0, e.0) then [e] + es
    else
      assert es == [es[0]] + es[1..];
      [es[0]] + Insert(e, es[1..], lt)
  }

  /** A stable sort by key. */
  function SortByKey(es: seq<(string, string)>, lt: Less): (r: seq<(string, string)>)
    ensures multiset(r) == multiset(es)
  {
    if es == [] then []
    else
      assert es == [es[0]] + es[1..];
      Insert(es[0], SortByKey(es[1..], lt), lt)
  }

  function Member(e: (string, string)): string {
    Quote(e.0) + (":" + e.1)
  }

  /** The members joined by commas, and the same with a leading comma. */
  function Members(es: seq<(string, string)>): string {
    if es == [] then "" else Member(es[0]) + MoreMembers(es[1..])
  }

  function MoreMembers(es: seq<(string, string)>): string {
    if es == [] then "" else "," + (Member(es[0]) + MoreMembers(es[1..]))
  }

  function Items(items: seq<string>): string {
    if items == [] then "" else items[0] + MoreItems(items[1..])
  }

  function MoreItems(items: seq<string>): string {
    if items == [] then "" else "," + (items[0] + MoreItems(items[1..]))
  }

  /** `stable`. Sorting looks at keys only, so members are rendered before they are sorted. */
  function Stable(v: Json, lt: Less): string
    decreases v, 1
  {
    match v
    case Null => "null"
    case Bool(b) => if b then "true" else "false"
    case Num(token) => token
    case Str(text) => Quote(text)
    case Arr(items) => "[" + Items(RenderItems(v, lt)) + "]"
    case Obj(entries) => "{" + Members(SortByKey(RenderEntries(v, lt), lt)) + "}"
  }

  function RenderItems(v: Json, lt: Less): (r: seq<string>)
    requires v.Arr?
    ensures |r| == |v.items|
    decreases v, 0
  {
    seq(|v.items|, i requires 0 <= i < |v.items| => Stable(v.items[i], lt))
  }

  function RenderEntries(v: Json, lt: Less): (r: seq<(string, string)>)
    requires v.Obj?
    ensures |r| == |v.entries|
    ensures forall i :: 0 <= i < |r| ==> r[i].0 == v.entries[i].0
    decreases v, 0
  {
    seq(|v.entries|, i requires 0 <= i < |v.entries| => (v.entries[i].0, Stable(v.entries[i].1, lt)))
  }

  function HashProductContract(v: Json, lt: Less, h: Hash): string {
    h(Stable(v, lt))
  }

  // ----- the printed form parses only one way -----

  /** What may follow a value: nothing, or a character that ends it. */
  predicate Ends(x: string) {
    x == "" || x[0] == ',' || x[0] == ']' || x[0] == '}'
  }

  lemma SamePrefix(s: string, t: string, x: string, y: string)
    requires s + x == t + y && |s| == |t|
    ensures s == t && x == y
  {
    assert s == (s + x)[..|s|] && t == (t + y)[..|s|];
    assert x == (s + x)[|s|..] && y == (t + y)[|s|..];
  }

  lemma Assoc(a: string, b: string, c: string)
    ensures (a + b) + c == a + (b + c)
  {
  }

  lemma Regroup(a: string, b: string, c: string, d: string)
    ensures (a + b + c) + d == a + (b + (c + d))
  {
  }

  /** Kinds of printed character: one shorter form than the other cannot start alike. */
  function EscapeKind(s: string): nat {
    if |s| >= 2 && s[0] == '\\' then (if s[1] == 'u' then 6 else 2) else 1
  }

  lemma EscapeCharForm(c: char)
    ensures |EscapeChar(c)| == EscapeKind(EscapeChar(c))
    ensures |EscapeChar(c)| == 1 ==> EscapeChar(c)[0] != '\\'
  {
  }

  lemma EscapeCharInjective(c: char, d: char)
    requires EscapeChar(c) == EscapeChar(d)
    ensures c == d
  {
    var s, t := EscapeChar(c), EscapeChar(d);
    assert s[0] == t[0] && |s| == |t|;
    if |s| == 2 {
      assert s[1] == t[1];
    } else if |s| == 6 {
      assert s[4] == t[4] && s[5] == t[5];
      HexPairInjective(c as int, d as int);
    }
  }

  lemma HexPairInjective(m: nat, n: nat)
    requires m < 32 && n < 32 && HexDigit(m / 16) == HexDigit(n / 16) && HexDigit(m % 16) == HexDigit(n % 16)
    ensures m == n
  {
    hide HexDigit;
    HexDigitValue(m / 16);
    HexDigitValue(n / 16);
    HexDigitValue(m % 16);
    HexDigitValue(n % 16);
  }

  lemma HexDigitValue(n: nat)
    requires n < 16
    ensures HexDigit(n) as int == if n < 10 then '0' as int + n else 'a' as int + n - 10
  {
  }

  lemma EscapeCharParses(c: char, d: char, x: string, y: string)
    requires EscapeChar(c) + x == EscapeChar(d) + y
    ensures c == d && x == y
  {
    var s, t := EscapeChar(c), EscapeChar(d);
    EscapeCharForm(c);
    EscapeCharForm(d);
    assert forall i :: 0 <= i < |s| ==> (s + x)[i] == s[i];
    assert forall i :: 0 <= i < |t| ==> (t + y)[i] == t[i];
    assert s[0] == t[0];
    assert |s| == |t|;
    SamePrefix(s, t, x, y);
    EscapeCharInjective(c, d);
  }

  lemma EscapeHead(s: string, x: string)
    ensures (Escape(s) + ("\"" + x))[0] == '"' <==> s == ""
    ensures s == "" ==> Escape(s) + ("\"" + x) == "\"" + x
    ensures s != "" ==> Escape(s) + ("\"" + x) == EscapeChar(s[0]) + (Escape(s[1..]) + ("\"" + x))
  {
    if s == "" {
      assert Escape(s) + ("\"" + x) == "\"" + x;
    } else {
      Assoc(EscapeChar(s[0]), Escape(s[1..]), "\"" + x);
    }
  }

  lemma {:induction false} EscapeParses(s: string, t: string, x: string, y: string)
    requires Escape(s) + ("\"" + x) == Escape(t) + ("\"" + y)
    ensures s == t && x == y
  {
    EscapeHead(s, x);
    EscapeHead(t, y);
    if s == "" {
      SamePrefix("\"", "\"", x, y);
    } else {
      EscapeCharParses(s[0], t[0], Escape(s[1..]) + ("\"" + x), Escape(t[1..]) + ("\"" + y));
      EscapeParses(s[1..], t[1..], x, y);
    }
  }

  lemma QuoteParses(s: string, t: string, x: string, y: string)
    requires Quote(s) + x == Quote(t) + y
    ensures s == t && x == y
  {
    Regroup("\"", Escape(s), "\"", x);
    Regroup("\"", Escape(t), "\"", y);
    SamePrefix("\"", "\"", Escape(s) + ("\"" + x), Escape(t) + ("\"" + y));
    EscapeParses(s, t, x, y);
  }

  /** A number token followed by an end is not a longer number token followed by anything. */
  lemma NumberNotLonger(s: string, t: string, x: string, y: string)
    requires NumberToken(t) && Ends(x)
    requires s + x == t + y
    ensures |t| <= |s|
  {
    assert |s| < |s + x| ==> (s + x)[|s|] == x[0];
  }

  lemma NumberParses(s: string, t: string, x: string, y: string)
    requires NumberToken(s) && NumberToken(t) && Ends(x) && Ends(y)
    requires s + x == t + y
    ensures s == t && x == y
  {
    NumberNotLonger(s, t, x, y);
    NumberNotLonger(t, s, y, x);
    SamePrefix(s, t, x, y);
  }

  /** The kind of a value shows in the first character of its printed form. */
  function Lead(v: Json): char
    requires Valid(v)
  {
    match v
    case Null => 'n'
    case Bool(b) => if b then 't' else 'f'
    case Num(token) => token[0]
    case Str(_) => '"'
    case Arr(_) => '['
    case Obj(_) => '{'
  }

  lemma StableLead(v: Json, lt: Less, x: string)
    requires Valid(v)
    ensures Stable(v, lt) != "" && (Stable(v, lt) + x)[0] == Stable(v, lt)[0] == Lead(v)
  {
  }

  lemma CommaHead(item: string, more: string, x: string)
    ensures ("," + (item + more)) + x == "," + (item + (more + x))
    ensures (("," + (item + more)) + x)[0] == ','
  {
    Assoc(",", item + more, x);
    Assoc(item, more, x);
  }

  lemma MoreItemsStep(items: seq<string>, i: nat, x: string)
    requires i <= |items|
    ensures (MoreItems(items[i..]) + ("]" + x))[0] == ',' <==> i < |items|
    ensures i < |items| ==>
              MoreItems(items[i..]) + ("]" + x) == "," + (items[i] + (MoreItems(items[i + 1..]) + ("]" + x)))
    ensures i == |items| ==> MoreItems(items[i..]) + ("]" + x) == "]" + x
    ensures Ends(MoreItems(items[i..]) + ("]" + x))
  {
    if i < |items| {
      assert items[i..][1..] == items[i + 1..];
      CommaHead(items[i], MoreItems(items[i + 1..]), "]" + x);
    } else {
      assert items[i..] == [];
      assert "" + ("]" + x) == "]" + x;
    }
  }

  lemma MoreMembersStep(es: seq<(string, string)>, x: string)
    ensures (MoreMembers(es) + ("}" + x))[0] == ',' <==> es != []
    ensures es != [] ==>
              MoreMembers(es) + ("}" + x) == "," + (Member(es[0]) + (MoreMembers(es[1..]) + ("}" + x)))
    ensures es == [] ==> MoreMembers(es) + ("}" + x) == "}" + x
    ensures Ends(MoreMembers(es) + ("}" + x))
  {
    if es != [] {
      CommaHead(Member(es[0]), MoreMembers(es[1..]), "}" + x);
    } else {
      assert "" + ("}" + x) == "}" + x;
    }
  }

  lemma RenderedItem(v: Json, lt: Less, i: nat)
    requires v.Arr? && i < |v.items|
    ensures RenderItems(v, lt)[i] == Stable(v.items[i], lt)
  {
  }

  lemma RenderedEntry(v: Json, lt: Less, p: (string, string)) returns (i: nat)
    requires v.Obj? && p in RenderEntries(v, lt)
    ensures i < |v.entries| && p == (v.entries[i].0, Stable(v.entries[i].1, lt))
  {
    i :| 0 <= i < |v.entries| && RenderEntries(v, lt)[i] == p;
  }

  lemma {:induction false} StableParses(a: Json, b: Json, lt: Less, x: string, y: string)
    requires Valid(a) && Valid(b) && Ends(x) && Ends(y)
    requires Stable(a, lt) + x == Stable(b, lt) + y
    ensures Same(a, b) && Stable(a, lt) == Stable(b, lt) && x == y
    decreases a, 3
  {
    StableLead(a, lt, x);
    StableLead(b, lt, y);
    match a {
      case Null => SamePrefix(Stable(a, lt), Stable(b, lt), x, y);
      case Bool(_) => SamePrefix(Stable(a, lt), Stable(b, lt), x, y);
      case Num(s) => NumberParses(s, b.token, x, y);
      case Str(s) => QuoteParses(s, b.text, x, y);
      case Arr(_) => ArrayParses(a, b, lt, x, y);
      case Obj(_) => ObjectParses(a, b, lt, x, y);
    }
  }

  lemma {:induction false} ArrayParses(a: Json, b: Json, lt: Less, x: string, y: string)
    requires a.Arr? && b.Arr? && Valid(a) && Valid(b) && Ends(x) && Ends(y)
    requires Stable(a, lt) + x == Stable(b, lt) + y
    ensures Same(a, b) && Stable(a, lt) == Stable(b, lt) && x == y
    decreases a, 2
  {
    var ra, rb := RenderItems(a, lt), RenderItems(b, lt);
    Regroup("[", Items(ra), "]", x);
    Regroup("[", Items(rb), "]", y);
    SamePrefix("[", "[", Items(ra) + ("]" + x), Items(rb) + ("]" + y));
    ItemsParse(a, b, lt, x, y);
    assert ra == rb;
  }

  lemma {:induction false} ItemsParse(a: Json, b: Json, lt: Less, x: string, y: string)
    requires a.Arr? && b.Arr? && Valid(a) && Valid(b)
    requires Items(RenderItems(a, lt)) + ("]" + x) == Items(RenderItems(b, lt)) + ("]" + y)
    ensures |a.items| == |b.items| && x == y
    ensures forall k :: 0 <= k < |a.items| ==> Same(a.items[k], b.items[k])
    ensures forall k :: 0 <= k < |a.items| ==> RenderItems(a, lt)[k] == RenderItems(b, lt)[k]
    decreases a, 1, |a.items| + 1
  {
    hide Stable, Same, Items, MoreItems, Ends;
    var ra, rb := RenderItems(a, lt), RenderItems(b, lt);
    ItemsHead(a, lt, x);
    ItemsHead(b, lt, y);
    if ra != [] {
      MoreItemsStep(ra, 1, x);
      MoreItemsStep(rb, 1, y);
      StableParses(a.items[0], b.items[0], lt, MoreItems(ra[1..]) + ("]" + x), MoreItems(rb[1..]) + ("]" + y));
      MoreItemsParse(a, b, lt, 1, x, y);
      RenderedItem(a, lt, 0);
      RenderedItem(b, lt, 0);
    } else {
      SamePrefix("]", "]", x, y);
    }
  }

  lemma ItemsHead(v: Json, lt: Less, x: string)
    requires v.Arr? && Valid(v)
    ensures var r := RenderItems(v, lt);
            && ((Items(r) + ("]" + x))[0] == ']' <==> r == [])
            && (r == [] ==> Items(r) + ("]" + x) == "]" + x)
            && (r != [] ==> Items(r) + ("]" + x) == Stable(v.items[0], lt) + (MoreItems(r[1..]) + ("]" + x)))
  {
    var r := RenderItems(v, lt);
    if r != [] {
      RenderedItem(v, lt, 0);
      Assoc(r[0], MoreItems(r[1..]), "]" + x);
      StableLead(v.items[0], lt, MoreItems(r[1..]) + ("]" + x));
    } else {
      assert Items(r) + ("]" + x) == "]" + x;
    }
  }

  lemma {:induction false} MoreItemsParse(a: Json, b: Json, lt: Less, i: nat, x: string, y: string)
    requires a.Arr? && b.Arr? && Valid(a) && Valid(b) && i <= |a.items| && i <= |b.items|
    requires MoreItems(RenderItems(a, lt)[i..]) + ("]" + x) == MoreItems(RenderItems(b, lt)[i..]) + ("]" + y)
    ensures |a.items| == |b.items| && x == y
    ensures forall k :: i <= k < |a.items| ==> Same(a.items[k], b.items[k])
    ensures forall k :: i <= k < |a.items| ==> RenderItems(a, lt)[k] == RenderItems(b, lt)[k]
    decreases a, 1, |a.items| - i
  {
    hide Stable, Same, Items, MoreItems, Ends, Valid;
    var ra, rb := RenderItems(a, lt), RenderItems(b, lt);
    MoreItemsStep(ra, i, x);
    MoreItemsStep(rb, i, y);
    if i == |ra| {
      SamePrefix("]", "]", x, y);
    } else {
      MoreItemsStep(ra, i + 1, x);
      MoreItemsStep(rb, i + 1, y);
      ItemParses(a, b, lt, i, MoreItems(ra[i + 1..]) + ("]" + x), MoreItems(rb[i + 1..]) + ("]" + y));
      MoreItemsParse(a, b, lt, i + 1, x, y);
    }
  }

  lemma ItemParses(a: Json, b: Json, lt: Less, i: nat, x: string, y: string)
    requires a.Arr? && b.Arr? && Valid(a) && Valid(b) && i < |a.items| && i < |b.items| && Ends(x) && Ends(y)
    requires "," + (RenderItems(a, lt)[i] + x) == "," + (RenderItems(b, lt)[i] + y)
    ensures Same(a.items[i], b.items[i]) && RenderItems(a, lt)[i] == RenderItems(b, lt)[i] && x == y
    decreases a, 0
  {
    RenderedItem(a, lt, i);
    RenderedItem(b, lt, i);
    SamePrefix(",", ",", RenderItems(a, lt)[i] + x, RenderItems(b, lt)[i] + y);
    StableParses(a.items[i], b.items[i], lt, x, y);
  }

  // ----- objects -----

  /** Each rendered member comes from an entry of the object. */
  ghost predicate MembersOf(v: Json, es: seq<(string, string)>, lt: Less)
    requires v.Obj?
  {
    forall i :: 0 <= i < |es| ==> es[i] in RenderEntries(v, lt)
  }

  lemma SortedMembersOf(v: Json, lt: Less)
    requires v.Obj?
    ensures MembersOf(v, SortByKey(RenderEntries(v, lt), lt), lt)
  {
    var es := SortByKey(RenderEntries(v, lt), lt);
    forall i | 0 <= i < |es| ensures es[i] in RenderEntries(v, lt) {
      assert es[i] in multiset(es);
    }
  }

  lemma {:induction false} ObjectParses(a: Json, b: Json, lt: Less, x: string, y: string)
    requires a.Obj? && b.Obj? && Valid(a) && Valid(b) && Ends(x) && Ends(y)
    requires Stable(a, lt) + x == Stable(b, lt) + y
    ensures Same(a, b) && Stable(a, lt) == Stable(b, lt) && x == y
    decreases a, 2, 1
  {
    SortedRendersParse(a, b, lt, x, y);
    SameFromRendered(a, b, lt);
  }

  lemma {:induction false} SortedRendersParse(a: Json, b: Json, lt: Less, x: string, y: string)
    requires a.Obj? && b.Obj? && Valid(a) && Valid(b)
    requires Stable(a, lt) + x == Stable(b, lt) + y
    ensures SortByKey(RenderEntries(a, lt), lt) == SortByKey(RenderEntries(b, lt), lt) && x == y
    decreases a, 2, 0
  {
    var ra, rb := SortByKey(RenderEntries(a, lt), lt), SortByKey(RenderEntries(b, lt), lt);
    Regroup("{", Members(ra), "}", x);
    Regroup("{", Members(rb), "}", y);
    SamePrefix("{", "{", Members(ra) + ("}" + x), Members(rb) + ("}" + y));
    SortedMembersOf(a, lt);
    SortedMembersOf(b, lt);
    MembersParse(a, b, lt, ra, rb, x, y);
  }

  lemma MemberParses(a: Json, b: Json, lt: Less, p: (string, string), q: (string, string), x: string, y: string)
    requires a.Obj? && b.Obj? && Valid(a) && Valid(b) && Ends(x) && Ends(y)
    requires p in RenderEntries(a, lt) && q in RenderEntries(b, lt)
    requires Member(p) + x == Member(q) + y
    ensures p == q && x == y
    decreases a, 0
  {
    hide Stable, Same, Quote, Ends;
    var i := RenderedEntry(a, lt, p);
    var j := RenderedEntry(b, lt, q);
    assert Member(p) == Quote(p.0) + ":" + p.1 && Member(q) == Quote(q.0) + ":" + q.1;
    Regroup(Quote(p.0), ":", p.1, x);
    Regroup(Quote(q.0), ":", q.1, y);
    QuoteParses(p.0, q.0, ":" + (p.1 + x), ":" + (q.1 + y));
    SamePrefix(":", ":", p.1 + x, q.1 + y);
    StableParses(a.entries[i].1, b.entries[j].1, lt, x, y);
  }

  lemma MembersHead(es: seq<(string, string)>, x: string)
    ensures (Members(es) + ("}" + x))[0] == '}' <==> es == []
    ensures es != [] ==> Members(es) + ("}" + x) == Member(es[0]) + (MoreMembers(es[1..]) + ("}" + x))
    ensures es == [] ==> Members(es) + ("}" + x) == "}" + x
  {
    if es != [] {
      assert Members(es) + ("}" + x) == Member(es[0]) + (MoreMembers(es[1..]) + ("}" + x));
    } else {
      assert "" + ("}" + x) == "}" + x;
    }
  }

  lemma {:induction false} MembersParse(
    a: Json, b: Json, lt: Less, ra: seq<(string, string)>, rb: seq<(string, string)>, x: string, y: string)
    requires a.Obj? && b.Obj? && Valid(a) && Valid(b)
    requires MembersOf(a, ra, lt) && MembersOf(b, rb, lt)
    requires Members(ra) + ("}" + x) == Members(rb) + ("}" + y)
    ensures ra == rb && x == y
    decreases a, 1, |ra| + 1
  {
    hide Stable, Same, Member, Members, MoreMembers, Ends, Valid;
    MembersHead(ra, x);
    MembersHead(rb, y);
    if ra == [] {
      SamePrefix("}", "}", x, y);
    } else {
      MoreMembersStep(ra[1..], x);
      MoreMembersStep(rb[1..], y);
      MemberParses(a, b, lt, ra[0], rb[0], MoreMembers(ra[1..]) + ("}" + x), MoreMembers(rb[1..]) + ("}" + y));
      MoreMembersParse(a, b, lt, ra[1..], rb[1..], x, y);
      assert ra == [ra[0]] + ra[1..] && rb == [rb[0]] + rb[1..];
    }
  }

  lemma {:induction false} MoreMembersParse(
    a: Json, b: Json, lt: Less, ra: seq<(string, string)>, rb: seq<(string, string)>, x: string, y: string)
    requires a.Obj? && b.Obj? && Valid(a) && Valid(b)
    requires MembersOf(a, ra, lt) && MembersOf(b, rb, lt)
    requires MoreMembers(ra) + ("}" + x) == MoreMembers(rb) + ("}" + y)
    ensures ra == rb && x == y
    decreases a, 1, |ra|
  {
    hide Stable, Same, Member, MoreMembers, Ends, Valid;
    MoreMembersStep(ra, x);
    MoreMembersStep(rb, y);
    if ra == [] {
      SamePrefix("}", "}", x, y);
    } else {
      var ta, tb := MoreMembers(ra[1..]) + ("}" + x), MoreMembers(rb[1..]) + ("}" + y);
      MoreMembersStep(ra[1..], x);
      MoreMembersStep(rb[1..], y);
      SamePrefix(",", ",", Member(ra[0]) + ta, Member(rb[0]) + tb);
      MemberParses(a, b, lt, ra[0], rb[0], ta, tb);
      MoreMembersParse(a, b, lt, ra[1..], rb[1..], x, y);
      assert ra == [ra[0]] + ra[1..] && rb == [rb[0]] + rb[1..];
    }
  }

  lemma {:induction false} LookupAt(es: seq<(string, Json)>, j: nat)
    requires DistinctKeys(es) && j < |es|
    ensures Lookup(es, es[j].0) == Some(es[j].1)
  {
    if j > 0 {
      LookupAt(es[1..], j - 1);
    }
  }

  lemma LookupEntry(v: Json, key: string) returns (i: nat)
    requires v.Obj? && Lookup(v.entries, key).Some?
    ensures i < |v.entries| && v.entries[i] == (key, Lookup(v.entries, key).value)
  {
    i :| 0 <= i < |v.entries| && v.entries[i] == (key, Lookup(v.entries, key).value);
  }

  /** An entry rendered by one object and also by another has its like there. */
  lemma RenderedAlike(a: Json, b: Json, lt: Less, i: nat)
    requires a.Obj? && b.Obj? && Valid(a) && Valid(b) && i < |a.entries|
    requires RenderEntries(a, lt)[i] in RenderEntries(b, lt)
    ensures var w := Lookup(b.entries, a.entries[i].0);
            w.Some? && Same(a.entries[i].1, w.value)
    decreases a, 0
  {
    var j := RenderedEntry(b, lt, RenderEntries(a, lt)[i]);
    LookupAt(b.entries, j);
    StableParses(a.entries[i].1, b.entries[j].1, lt, "", "");
  }

  lemma {:induction false} SameFromRendered(a: Json, b: Json, lt: Less)
    requires a.Obj? && b.Obj? && Valid(a) && Valid(b)
    requires SortByKey(RenderEntries(a, lt), lt) == SortByKey(RenderEntries(b, lt), lt)
    ensures Same(a, b)
    decreases a, 1
  {
    var ra, rb := RenderEntries(a, lt), RenderEntries(b, lt);
    assert multiset(ra) == multiset(rb);
    forall i | 0 <= i < |a.entries|
      ensures var w := Lookup(b.entries, a.entries[i].0); w.Some? && Same(a.entries[i].1, w.value)
    {
      assert ra[i] in multiset(ra) && ra[i] in multiset(rb);
      RenderedAlike(a, b, lt, i);
    }
    forall j | 0 <= j < |b.entries| ensures Lookup(a.entries, b.entries[j].0).Some? {
      assert rb[j] in multiset(rb) && rb[j] in multiset(ra);
      var i := RenderedEntry(a, lt, rb[j]);
      LookupAt(a.entries, i);
    }
  }

  // ----- and does not depend on the order of members -----

  /** Key comparison as sorting needs it; `Connected` adds that no two keys tie. */
  ghost predicate StrictOrder(lt: Less) {
    && (forall x :: !lt(x, x))
    && (forall x, y, z :: lt(x, y) && lt(y, z) ==> lt(x, z))
  }

  ghost predicate Connected(lt: Less) {
    forall x, y :: x == y || lt(x, y) || lt(y, x)
  }

  ghost predicate Sorted(es: seq<(string, string)>, lt: Less) {
    forall i, j :: 0 <= i < j < |es| ==> lt(es[i].0, es[j].0)
  }

  lemma {:induction false} InsertKeepsSorted(e: (string, string), es: seq<(string, string)>, lt: Less)
    requires StrictOrder(lt) && Connected(lt) && Sorted(es, lt)
    requires forall i :: 0 <= i < |es| ==> es[i].0 != e.0
    ensures Sorted(Insert(e, es, lt), lt)
  {
    if es != [] && lt(es[0].0, e.0) {
      hide StrictOrder, Connected;
      var rest := Insert(e, es[1..], lt);
      InsertKeepsSorted(e, es[1..], lt);
      forall j | 0 <= j < |rest| ensures lt(es[0].0, rest[j].0) {
        assert rest[j] in multiset(es[1..]) + multiset{e};
        if rest[j] != e {
          assert rest[j] in es[1..];
        }
      }
    } else {
      forall j | 0 <= j < |es| ensures lt(e.0, es[j].0) {
        assert lt(e.0, es[0].0);
      }
    }
  }

  lemma {:induction false} SortIsSorted(es: seq<(string, string)>, lt: Less)
    requires StrictOrder(lt) && Connected(lt) && DistinctKeys(es)
    ensures Sorted(SortByKey(es, lt), lt)
  {
    if es != [] {
      var rest := SortByKey(es[1..], lt);
      SortIsSorted(es[1..], lt);
      forall i | 0 <= i < |rest| ensures rest[i].0 != es[0].0 {
        assert rest[i] in multiset(es[1..]);
        var j :| 0 <= j < |es[1..]| && es[1..][j] == rest[i];
        assert es[j + 1] == rest[i];
      }
      InsertKeepsSorted(es[0], rest, lt);
    }
  }

  /** Two sorted lists with the same elements are the same list. */
  lemma {:induction false} SortedListsAgree(xs: seq<(string, string)>, ys: seq<(string, string)>, lt: Less)
    requires StrictOrder(lt) && Sorted(xs, lt) && Sorted(ys, lt)
    requires forall x :: x in xs <==> x in ys
    ensures xs == ys
  {
    assert ys != [] ==> ys[0] in xs;
    if xs != [] {
      assert xs[0] in ys;
      var j :| 0 <= j < |ys| && ys[j] == xs[0];
      assert ys[0] in xs;
      var i :| 0 <= i < |xs| && xs[i] == ys[0];
      assert i == 0 || j == 0;
      assert xs[0] == ys[0];
      forall x ensures x in xs[1..] <==> x in ys[1..] {
        TailElement(xs, lt, x);
        TailElement(ys, lt, x);
      }
      SortedListsAgree(xs[1..], ys[1..], lt);
      assert xs == [xs[0]] + xs[1..] && ys == [ys[0]] + ys[1..];
    }
  }

  lemma TailElement(xs: seq<(string, string)>, lt: Less, x: (string, string))
    requires StrictOrder(lt) && Sorted(xs, lt) && xs != []
    ensures x in xs[1..] <==> x in xs && x != xs[0]
  {
    if x in xs[1..] {
      var k :| 0 <= k < |xs[1..]| && xs[1..][k] == x;
      assert lt(xs[0].0, xs[k + 1].0);
    }
    if x in xs && x != xs[0] {
      var k :| 0 <= k < |xs| && xs[k] == x;
      assert xs[1..][k - 1] == x;
    }
  }

  lemma {:induction false} SameIsStable(a: Json, b: Json, lt: Less)
    requires StrictOrder(lt) && Connected(lt) && Valid(a) && Valid(b) && Same(a, b)
    ensures Stable(a, lt) == Stable(b, lt)
    decreases a, 1
  {
    if a.Arr? && b.Arr? {
      forall i | 0 <= i < |a.items| ensures RenderItems(a, lt)[i] == RenderItems(b, lt)[i] {
        SameIsStable(a.items[i], b.items[i], lt);
        RenderedItem(a, lt, i);
        RenderedItem(b, lt, i);
      }
      assert RenderItems(a, lt) == RenderItems(b, lt);
    } else if a.Obj? && b.Obj? {
      SameObjects(a, b, lt);
    }
  }

  lemma SameRendered(a: Json, b: Json, lt: Less, i: nat)
    requires a.Obj? && b.Obj? && Valid(a) && Valid(b) && Same(a, b) && i < |a.entries|
    requires StrictOrder(lt) && Connected(lt)
    ensures RenderEntries(a, lt)[i] in RenderEntries(b, lt)
    decreases a, 0, 0
  {
    var key := a.entries[i].0;
    assert Same(a.entries[i].1, Lookup(b.entries, key).value);
    var j := LookupEntry(b, key);
    SameIsStable(a.entries[i].1, b.entries[j].1, lt);
    assert RenderEntries(b, lt)[j] == RenderEntries(a, lt)[i];
  }

  lemma SameRenderedBack(a: Json, b: Json, lt: Less, j: nat)
    requires a.Obj? && b.Obj? && Valid(a) && Valid(b) && Same(a, b) && j < |b.entries|
    requires StrictOrder(lt) && Connected(lt)
    ensures RenderEntries(b, lt)[j] in RenderEntries(a, lt)
    decreases a, 0, 0
  {
    var key := b.entries[j].0;
    var i := LookupEntry(a, key);
    LookupAt(b.entries, j);
    assert Same(a.entries[i].1, Lookup(b.entries, key).value);
    SameIsStable(a.entries[i].1, b.entries[j].1, lt);
    assert RenderEntries(b, lt)[j] == RenderEntries(a, lt)[i];
  }

  lemma RenderedInOther(a: Json, b: Json, lt: Less, x: (string, string))
    requires a.Obj? && b.Obj?
    requires StrictOrder(lt) && Connected(lt) && Valid(a) && Valid(b) && Same(a, b)
    ensures x in RenderEntries(a, lt) <==> x in RenderEntries(b, lt)
    decreases a, 0, 1
  {
    if x in RenderEntries(a, lt) {
      var i := RenderedEntry(a, lt, x);
      SameRendered(a, b, lt, i);
    }
    if x in RenderEntries(b, lt) {
      var j := RenderedEntry(b, lt, x);
      SameRenderedBack(a, b, lt, j);
    }
  }

  lemma SortKeepsElements(es: seq<(string, string)>, lt: Less, x: (string, string))
    ensures x in SortByKey(es, lt) <==> x in es
  {
    assert x in SortByKey(es, lt) <==> x in multiset(SortByKey(es, lt));
    assert x in es <==> x in multiset(es);
  }

  lemma {:induction false} SameObjects(a: Json, b: Json, lt: Less)
    requires a.Obj? && b.Obj?
    requires StrictOrder(lt) && Connected(lt) && Valid(a) && Valid(b) && Same(a, b)
    ensures SortByKey(RenderEntries(a, lt), lt) == SortByKey(RenderEntries(b, lt), lt)
    decreases a, 0, 2
  {
    var ra, rb := RenderEntries(a, lt), RenderEntries(b, lt);
    forall x ensures x in SortByKey(ra, lt) <==> x in SortByKey(rb, lt) {
      SortKeepsElements(ra, lt, x);
      SortKeepsElements(rb, lt, x);
      RenderedInOther(a, b, lt, x);
    }
    SortIsSorted(ra, lt);
    SortIsSorted(rb, lt);
    SortedListsAgree(SortByKey(ra, lt), SortByKey(rb, lt), lt);
  }

  // ----- reading the printed form -----

  function HexValue(c: char): Option<nat> {
    if '0' <= c <= '9' then Some(c as int - '0' as int)
    else if 'a' <= c <= 'f' then Some(c as int - 'a' as int + 10)
    else if 'A' <= c <= 'F' then Some(c as int - 'A' as int + 10)
    else None
  }

  /** The character of four hexadecimal digits; surrogates are not read. */
  function ReadHex(s: string): (r: Option<char>)
    requires |s| == 4
  {
    var a, b, c, d := HexValue(s[0]), HexValue(s[1]), HexValue(s[2]), HexValue(s[3]);
    if a.None? || b.None? || c.None? || d.None? then None
    else
      var code := ((a.value * 16 + b.value) * 16 + c.value) * 16 + d.value;
      if code < 0xD800 then Some(code as char)
      else if 0xE000 <= code < 0x10000 then Some(code as char)
      else None
  }

  /** One character of a string (RFC 8259, section 7), and the text behind it. */
  function ReadChar(s: string): (r: Option<(char, string)>)
    ensures r.Some? ==> |r.value.1| < |s|
  {
    if s == "" || s[0] == '"' || s[0] < ' ' then None
    else if s[0] != '\\' then Some((s[0], s[1..]))
    else if |s| < 2 then None
    else if s[1] == '"' || s[1] == '\\' || s[1] == '/' then Some((s[1], s[2..]))
    else if s[1] == 'b' then Some(('\U{08}', s[2..]))
    else if s[1] == 'f' then Some(('\U{0C}', s[2..]))
    else if s[1] == 'n' then Some(('\n', s[2..]))
    else if s[1] == 'r' then Some(('\r', s[2..]))
    else if s[1] == 't' then Some(('\t', s[2..]))
    else if s[1] == 'u' && |s| >= 6 then
      var code := ReadHex(s[2..6]);
      if code.Some? then Some((code.value, s[6..])) else None
    else None
  }

  /** The characters up to the closing quote, and the text behind it. */
  function ReadText(s: string): (r: Option<(string, string)>)
    ensures r.Some? ==> |r.value.1| < |s|
    decreases |s|
  {
    if s != "" && s[0] == '"' then Some(("", s[1..]))
    else
      var first := ReadChar(s);
      if first.None? then None
      else
        var rest := ReadText(first.value.1);
        if rest.None? then None else Some(([first.value.0] + rest.value.0, rest.value.1))
  }

  /** Length of the longest run of the characters that numbers are made of. */
  function NumberRun(s: string): (n: nat)
    ensures n <= |s|
  {
    if s == "" || !NumberChar(s[0]) then 0 else 1 + NumberRun(s[1..])
  }

  /** One value without white space around it (RFC 8259, section 3), and the text behind it. */
  function ReadValue(s: string): (r: Option<(Json, string)>)
    ensures r.Some? ==> |r.value.1| < |s|
    decreases |s|, 0
  {
    if s == "" then None
    else if s[0] == '"' then
      var text := ReadText(s[1..]);
      if text.None? then None else Some((Str(text.value.0), text.value.1))
    else if "[]" <= s then Some((Arr([]), s[2..]))
    else if s[0] == '[' then
      var items := ReadItems(s[1..]);
      if items.None? then None else Some((Arr(items.value.0), items.value.1))
    else if "{}" <= s then Some((Obj([]), s[2..]))
    else if s[0] == '{' then
      var members := ReadMembers(s[1..]);
      if members.None? then None else Some((Obj(members.value.0), members.value.1))
    else if "null" <= s then Some((Null, s[4..]))
    else if "true" <= s then Some((Bool(true), s[4..]))
    else if "false" <= s then Some((Bool(false), s[5..]))
    else if NumberToken(s[..NumberRun(s)]) then Some((Num(s[..NumberRun(s)]), s[NumberRun(s)..]))
    else None
  }

  /** The items of an array up to its closing bracket. */
  function ReadItems(s: string): (r: Option<(seq<Json>, string)>)
    ensures r.Some? ==> |r.value.1| < |s|
    decreases |s|, 1
  {
    var item := ReadValue(s);
    if item.None? || item.value.1 == "" then None
    else
      var rest := item.value.1;
      if rest[0] == ']' then Some(([item.value.0], rest[1..]))
      else if rest[0] == ',' then
        var more := ReadItems(rest[1..]);
        if more.None? then None else Some(([item.value.0] + more.value.0, more.value.1))
      else None
  }

  /** The key and the colon in front of a member's value. */
  function ReadKey(s: string): (r: Option<(string, string)>)
    ensures r.Some? ==> |r.value.1| < |s|
  {
    if s == "" || s[0] != '"' then None
    else
      var key := ReadText(s[1..]);
      if key.None? || key.value.1 == "" || key.value.1[0] != ':' then None
      else Some((key.value.0, key.value.1[1..]))
  }

  /** The members of an object up to its closing brace. */
  function ReadMembers(s: string): (r: Option<(seq<(string, Json)>, string)>)
    ensures r.Some? ==> |r.value.1| < |s|
    decreases |s|, 1
  {
    var key := ReadKey(s);
    if key.None? then None
    else
      var value := ReadValue(key.value.1);
      if value.None? || value.value.1 == "" then None
      else
        var rest, member := value.value.1, (key.value.0, value.value.0);
        if rest[0] == '}' then Some(([member], rest[1..]))
        else if rest[0] == ',' then
          var more := ReadMembers(rest[1..]);
          if more.None? then None else Some(([member] + more.value.0, more.value.1))
        else None
  }

  lemma HexReads(n: nat)
    requires n < 16
    ensures HexValue(HexDigit(n)) == Some(n)
  {
    HexDigitValue(n);
  }

  lemma ReadCharBack(c: char, x: string)
    ensures ReadChar(EscapeChar(c) + x) == Some((c, x))
  {
    var s := EscapeChar(c) + x;
    assert s[|EscapeChar(c)|..] == x;
    assert forall i :: 0 <= i < |EscapeChar(c)| ==> s[i] == EscapeChar(c)[i];
    if |EscapeChar(c)| == 6 {
      hide HexDigit, HexValue;
      HexReads(c as int / 16);
      HexReads(c as int % 16);
      HexReadsZero();
      assert s[2..6][0] == '0' && s[2..6][1] == '0' && s[2..6][2] == s[4] && s[2..6][3] == s[5];
    }
  }

  lemma HexReadsZero()
    ensures HexValue('0') == Some(0)
  {
  }

  /** No shorter text inside a string stands for the character. */
  lemma ShortestEscape(c: char, s: string)
    requires ReadChar(s) == Some((c, ""))
    ensures |EscapeChar(c)| <= |s|
  {
  }

  lemma {:induction false} ReadTextBack(s: string, x: string)
    ensures ReadText(Escape(s) + ("\"" + x)) == Some((s, x))
  {
    hide EscapeChar, ReadChar;
    EscapeHead(s, x);
    if s == "" {
      assert ("\"" + x)[1..] == x;
    } else {
      var rest := Escape(s[1..]) + ("\"" + x);
      ReadCharBack(s[0], rest);
      ReadTextBack(s[1..], x);
      assert [s[0]] + s[1..] == s;
    }
  }

  /** In every object the members come with increasing keys. */
  ghost predicate MembersSorted(v: Json, lt: Less)
    decreases v
  {
    match v
    case Arr(items) => forall i | 0 <= i < |items| :: MembersSorted(items[i], lt)
    case Obj(entries) =>
      && (forall i, j :: 0 <= i < j < |entries| ==> lt(entries[i].0, entries[j].0))
      && (forall i | 0 <= i < |entries| :: MembersSorted(entries[i].1, lt))
    case _ => true
  }

  /** The second value is the first with its members rearranged, by increasing key where no two keys tie. */
  ghost predicate Rearranged(v: Json, w: Json, lt: Less) {
    Valid(w) && Same(v, w) && (StrictOrder(lt) && Connected(lt) ==> MembersSorted(w, lt))
  }

  lemma NumberRunOf(token: string, x: string)
    requires NumberToken(token) && Ends(x)
    ensures NumberRun(token + x) == |token|
  {
    NumberRunThrough(token, x);
    assert x == "" || !NumberChar(x[0]);
  }

  lemma {:induction false} NumberRunThrough(token: string, x: string)
    requires forall i :: 0 <= i < |token| ==> NumberChar(token[i])
    ensures NumberRun(token + x) == |token| + NumberRun(x)
  {
    hide NumberChar;
    if token == "" {
      assert token + x == x;
    } else {
      assert (token + x)[0] == token[0] && (token + x)[1..] == token[1..] + x;
      NumberRunThrough(token[1..], x);
    }
  }

  lemma ReadNumber(token: string, x: string)
    requires NumberToken(token) && Ends(x)
    ensures ReadValue(token + x) == Some((Num(token), x))
  {
    NumberRunOf(token, x);
    var s := token + x;
    assert s[..|token|] == token && s[|token|..] == x && s[0] == token[0];
  }

  lemma ReadWord(v: Json, lt: Less, x: string)
    requires v.Null? || v.Bool?
    ensures ReadValue(Stable(v, lt) + x) == Some((v, x))
  {
    var word := Stable(v, lt);
    var s := word + x;
    assert s[..|word|] == word && s[|word|..] == x && s[0] == word[0];
  }

  lemma ReadString(text: string, x: string)
    ensures ReadValue(Quote(text) + x) == Some((Str(text), x))
  {
    hide ReadText, Escape;
    Regroup("\"", Escape(text), "\"", x);
    var s := Quote(text) + x;
    assert s[0] == '"' && s[1..] == Escape(text) + ("\"" + x);
    ReadTextBack(text, x);
  }

  lemma MoreItemsIs(items: seq<string>)
    ensures MoreItems(items) == if items == [] then "" else "," + Items(items)
  {
  }

  lemma MoreMembersIs(es: seq<(string, string)>)
    ensures MoreMembers(es) == if es == [] then "" else "," + Members(es)
  {
  }

  lemma RearrangedLeaf(v: Json, lt: Less)
    requires Valid(v) && !v.Arr? && !v.Obj?
    ensures Rearranged(v, v, lt)
  {
  }

  lemma RearrangedArr(v: Json, ws: seq<Json>, lt: Less)
    requires v.Arr? && |ws| == |v.items| && forall i :: 0 <= i < |ws| ==> Rearranged(v.items[i], ws[i], lt)
    ensures Rearranged(v, Arr(ws), lt)
  {
    hide StrictOrder, Connected;
  }

  /** The printed form read back: the value with its members rearranged, and the rest of the text untouched. */
  lemma {:induction false} ReadsBack(v: Json, lt: Less, x: string) returns (w: Json)
    requires Valid(v) && Ends(x)
    ensures Rearranged(v, w, lt) && ReadValue(Stable(v, lt) + x) == Some((w, x))
    decreases v, 3
  {
    hide Rearranged, ReadValue;
    match v {
      case Arr(_) => w := ArrayReadsBack(v, lt, x);
      case Obj(_) => w := ObjectReadsBack(v, lt, x);
      case Num(token) =>
        w := v;
        ReadNumber(token, x);
        RearrangedLeaf(v, lt);
      case Str(text) =>
        w := v;
        ReadString(text, x);
        RearrangedLeaf(v, lt);
      case _ =>
        w := v;
        ReadWord(v, lt, x);
        RearrangedLeaf(v, lt);
    }
  }

  lemma ReadBracket(s: string, x: string)
    ensures ReadValue("[]" + x) == Some((Arr([]), x))
    ensures s != "" && s[0] != ']' ==>
              ReadValue("[" + s) == if ReadItems(s).None? then None
                                    else Some((Arr(ReadItems(s).value.0), ReadItems(s).value.1))
  {
    hide ReadItems;
    assert ("[]" + x)[..2] == "[]" && ("[]" + x)[2..] == x;
    assert ("[" + s)[1..] == s;
    assert s != "" && "[]" <= "[" + s ==> ("[" + s)[1] == ']';
  }

  lemma {:induction false} ArrayReadsBack(v: Json, lt: Less, x: string) returns (w: Json)
    requires v.Arr? && Valid(v) && Ends(x)
    ensures Rearranged(v, w, lt) && ReadValue(Stable(v, lt) + x) == Some((w, x))
    decreases v, 2
  {
    hide *;
    var r := RenderItems(v, lt);
    ArrayText(v, lt, x);
    ItemsHead(v, lt, x);
    var text := Items(r) + ("]" + x);
    ReadBracket(text, x);
    var ws: seq<Json> := [];
    if r == [] {
      assert "[" + ("]" + x) == "[]" + x;
    } else {
      ws := ItemsReadBack(v, lt, 0, x);
      assert r[0..] == r;
    }
    w := Arr(ws);
    RearrangedArr(v, ws, lt);
  }

  lemma ArrayText(v: Json, lt: Less, x: string)
    requires v.Arr?
    ensures Stable(v, lt) + x == "[" + (Items(RenderItems(v, lt)) + ("]" + x))
  {
    hide Items, RenderItems;
    Regroup("[", Items(RenderItems(v, lt)), "]", x);
  }

  lemma ObjectText(v: Json, lt: Less, x: string)
    requires v.Obj?
    ensures Stable(v, lt) + x == "{" + (Members(SortByKey(RenderEntries(v, lt), lt)) + ("}" + x))
  {
    hide Members, SortByKey, RenderEntries;
    Regroup("{", Members(SortByKey(RenderEntries(v, lt), lt)), "}", x);
  }

  lemma ItemsFrom(v: Json, lt: Less, i: nat, x: string)
    requires v.Arr? && i < |v.items|
    ensures var r := RenderItems(v, lt);
            var rest := MoreItems(r[i + 1..]) + ("]" + x);
            && Ends(rest) && rest != ""
            && Items(r[i..]) + ("]" + x) == Stable(v.items[i], lt) + rest
            && rest == if i + 1 == |r| then "]" + x else "," + (Items(r[i + 1..]) + ("]" + x))
  {
    hide Items, MoreItems;
    var r := RenderItems(v, lt);
    RenderedItem(v, lt, i);
    MoreItemsStep(r, i + 1, x);
    MoreItemsIs(r[i + 1..]);
    ItemsAre(r, i);
    Assoc(r[i], MoreItems(r[i + 1..]), "]" + x);
    Assoc(",", Items(r[i + 1..]), "]" + x);
  }

  lemma ItemsAre(r: seq<string>, i: nat)
    requires i < |r|
    ensures Items(r[i..]) == r[i] + MoreItems(r[i + 1..])
  {
    assert r[i..][1..] == r[i + 1..];
  }

  lemma ReadItemsStep(s: string, w: Json, rest: string)
    requires ReadValue(s) == Some((w, rest)) && rest != ""
    ensures rest[0] == ']' ==> ReadItems(s) == Some(([w], rest[1..]))
    ensures rest[0] == ',' && ReadItems(rest[1..]).Some? ==>
              ReadItems(s) == Some(([w] + ReadItems(rest[1..]).value.0, ReadItems(rest[1..]).value.1))
  {
    hide ReadValue;
  }

  lemma {:induction false} ItemsReadBack(v: Json, lt: Less, i: nat, x: string) returns (ws: seq<Json>)
    requires v.Arr? && Valid(v) && i < |v.items|
    ensures ReadItems(Items(RenderItems(v, lt)[i..]) + ("]" + x)) == Some((ws, x))
    ensures |ws| == |v.items| - i && forall k :: 0 <= k < |ws| ==> Rearranged(v.items[i + k], ws[k], lt)
    decreases v, 1, |v.items| - i
  {
    hide *;
    var r := RenderItems(v, lt);
    var rest := MoreItems(r[i + 1..]) + ("]" + x);
    ItemsFrom(v, lt, i, x);
    ValidItem(v, i);
    var first := ReadsBack(v.items[i], lt, rest);
    ReadItemsStep(Items(r[i..]) + ("]" + x), first, rest);
    ws := [first];
    if i + 1 == |v.items| {
      assert rest[1..] == x;
    } else {
      var more := ItemsReadBack(v, lt, i + 1, x);
      assert rest[1..] == Items(r[i + 1..]) + ("]" + x);
      ws := ws + more;
      assert forall k :: 1 <= k < |ws| ==> ws[k] == more[k - 1] && v.items[i + 1 + (k - 1)] == v.items[i + k];
    }
  }

  lemma {:induction false} InsertKeepsDistinct(e: (string, string), es: seq<(string, string)>, lt: Less)
    requires DistinctKeys(es) && forall i :: 0 <= i < |es| ==> es[i].0 != e.0
    ensures DistinctKeys(Insert(e, es, lt))
  {
    if es != [] && lt(es[0].0, e.0) {
      var rest := Insert(e, es[1..], lt);
      InsertKeepsDistinct(e, es[1..], lt);
      forall j | 0 <= j < |rest| ensures rest[j].0 != es[0].0 {
        assert rest[j] in multiset(es[1..]) + multiset{e};
        if rest[j] != e {
          assert rest[j] in es[1..];
        }
      }
    }
  }

  lemma {:induction false} SortKeepsDistinct(es: seq<(string, string)>, lt: Less)
    requires DistinctKeys(es)
    ensures DistinctKeys(SortByKey(es, lt))
  {
    if es != [] {
      var rest := SortByKey(es[1..], lt);
      SortKeepsDistinct(es[1..], lt);
      forall i | 0 <= i < |rest| ensures rest[i].0 != es[0].0 {
        assert rest[i] in multiset(es[1..]);
        var j :| 0 <= j < |es[1..]| && es[1..][j] == rest[i];
        assert es[j + 1] == rest[i];
      }
      InsertKeepsDistinct(es[0], rest, lt);
    }
  }

  /** Each read member is that of a rendered one: the same key, and the value of that key rearranged. */
  ghost predicate MembersRead(v: Json, es: seq<(string, string)>, ws: seq<(string, Json)>, lt: Less)
    requires v.Obj?
  {
    |ws| == |es| &&
    forall i :: 0 <= i < |ws| ==>
      && ws[i].0 == es[i].0 && Lookup(v.entries, ws[i].0).Some?
      && Rearranged(Lookup(v.entries, ws[i].0).value, ws[i].1, lt)
  }

  lemma ReadMember(v: Json, es: seq<(string, string)>, ws: seq<(string, Json)>, lt: Less, i: nat)
    requires v.Obj? && MembersRead(v, es, ws, lt) && i < |ws|
    ensures ws[i].0 == es[i].0 && Valid(ws[i].1) && Lookup(v.entries, ws[i].0).Some?
    ensures Same(Lookup(v.entries, ws[i].0).value, ws[i].1)
    ensures StrictOrder(lt) && Connected(lt) ==> MembersSorted(ws[i].1, lt)
  {
    hide Rearranged, Lookup;
    RearrangedMeans(Lookup(v.entries, ws[i].0).value, ws[i].1, lt);
  }

  lemma ReadValid(v: Json, es: seq<(string, string)>, ws: seq<(string, Json)>, lt: Less)
    requires v.Obj? && Valid(v) && es == SortByKey(RenderEntries(v, lt), lt) && MembersRead(v, es, ws, lt)
    ensures Valid(Obj(ws))
  {
    hide MembersRead, SortByKey, RenderEntries, Lookup;
    SortKeepsDistinct(RenderEntries(v, lt), lt);
    SameSize(v, es, ws, lt);
    forall i | 0 <= i < |ws| ensures ws[i].0 == es[i].0 && Valid(ws[i].1) {
      ReadMember(v, es, ws, lt, i);
    }
  }

  lemma SameSize(v: Json, es: seq<(string, string)>, ws: seq<(string, Json)>, lt: Less)
    requires v.Obj? && MembersRead(v, es, ws, lt)
    ensures |ws| == |es|
  {
  }

  lemma ReadSame(v: Json, es: seq<(string, string)>, ws: seq<(string, Json)>, lt: Less)
    requires v.Obj? && Valid(v) && es == SortByKey(RenderEntries(v, lt), lt) && MembersRead(v, es, ws, lt)
    requires Valid(Obj(ws))
    ensures Same(v, Obj(ws))
  {
    hide MembersRead, SortByKey, RenderEntries, Lookup;
    SameSize(v, es, ws, lt);
    forall i | 0 <= i < |v.entries|
      ensures Lookup(ws, v.entries[i].0).Some? && Same(v.entries[i].1, Lookup(ws, v.entries[i].0).value)
    {
      var j := RenderedPlace(v, es, lt, i);
      LookupAt(v.entries, i);
      ReadMember(v, es, ws, lt, j);
      LookupAt(ws, j);
    }
    forall j | 0 <= j < |ws| ensures Lookup(v.entries, ws[j].0).Some? {
      ReadMember(v, es, ws, lt, j);
    }
  }

  lemma ReadSorted(v: Json, es: seq<(string, string)>, ws: seq<(string, Json)>, lt: Less)
    requires v.Obj? && Valid(v) && es == SortByKey(RenderEntries(v, lt), lt) && MembersRead(v, es, ws, lt)
    requires StrictOrder(lt) && Connected(lt)
    ensures MembersSorted(Obj(ws), lt)
  {
    hide MembersRead, SortByKey, RenderEntries, Lookup, StrictOrder, Connected;
    SameSize(v, es, ws, lt);
    SortIsSorted(RenderEntries(v, lt), lt);
    forall i | 0 <= i < |ws| ensures ws[i].0 == es[i].0 && MembersSorted(ws[i].1, lt) {
      ReadMember(v, es, ws, lt, i);
    }
  }

  lemma RearrangedObj(v: Json, es: seq<(string, string)>, ws: seq<(string, Json)>, lt: Less)
    requires v.Obj? && Valid(v) && es == SortByKey(RenderEntries(v, lt), lt) && MembersRead(v, es, ws, lt)
    ensures Rearranged(v, Obj(ws), lt)
  {
    hide *;
    ReadValid(v, es, ws, lt);
    ReadSame(v, es, ws, lt);
    if StrictOrder(lt) && Connected(lt) {
      ReadSorted(v, es, ws, lt);
    }
    RearrangedFrom(v, Obj(ws), lt);
  }

  lemma RearrangedMeans(v: Json, w: Json, lt: Less)
    requires Rearranged(v, w, lt)
    ensures Valid(w) && Same(v, w)
    ensures StrictOrder(lt) && Connected(lt) ==> MembersSorted(w, lt)
  {
  }

  lemma RearrangedFrom(v: Json, w: Json, lt: Less)
    requires Valid(w) && Same(v, w)
    requires StrictOrder(lt) && Connected(lt) ==> MembersSorted(w, lt)
    ensures Rearranged(v, w, lt)
  {
  }

  lemma RenderedPlace(v: Json, es: seq<(string, string)>, lt: Less, i: nat) returns (j: nat)
    requires v.Obj? && i < |v.entries| && es == SortByKey(RenderEntries(v, lt), lt)
    ensures j < |es| && es[j].0 == v.entries[i].0
  {
    var r := RenderEntries(v, lt);
    SortKeepsElements(r, lt, r[i]);
    j :| 0 <= j < |es| && es[j] == r[i];
  }

  lemma ReadBrace(s: string, x: string)
    ensures ReadValue("{}" + x) == Some((Obj([]), x))
    ensures s != "" && s[0] != '}' ==>
              ReadValue("{" + s) == if ReadMembers(s).None? then None
                                    else Some((Obj(ReadMembers(s).value.0), ReadMembers(s).value.1))
  {
    hide ReadMembers;
    assert ("{}" + x)[..2] == "{}" && ("{}" + x)[2..] == x;
    assert ("{" + s)[1..] == s;
    assert s != "" && "{}" <= "{" + s ==> ("{" + s)[1] == '}';
    assert !("[]" <= "{" + s) && !("[]" <= "{}" + x) by {
      assert ("{" + s)[0] == '{' && ("{}" + x)[0] == '{';
    }
  }

  lemma {:induction false} ObjectReadsBack(v: Json, lt: Less, x: string) returns (w: Json)
    requires v.Obj? && Valid(v) && Ends(x)
    ensures Rearranged(v, w, lt) && ReadValue(Stable(v, lt) + x) == Some((w, x))
    decreases v, 2
  {
    hide *;
    var es := SortByKey(RenderEntries(v, lt), lt);
    ObjectText(v, lt, x);
    MembersHead(es, x);
    SortedMembersOf(v, lt);
    var text := Members(es) + ("}" + x);
    ReadBrace(text, x);
    var ws: seq<(string, Json)> := [];
    if es == [] {
      assert "{" + ("}" + x) == "{}" + x;
      NoMembersRead(v, lt);
    } else {
      ws := MembersReadBack(v, es, lt, x);
    }
    w := Obj(ws);
    RearrangedObj(v, es, ws, lt);
  }

  lemma NoMembersRead(v: Json, lt: Less)
    requires v.Obj?
    ensures MembersRead(v, [], [], lt)
  {
  }

  lemma ReadMembersStep(s: string, key: string, text: string, w: Json, rest: string)
    requires ReadKey(s) == Some((key, text)) && ReadValue(text) == Some((w, rest)) && rest != ""
    ensures rest[0] == '}' ==> ReadMembers(s) == Some(([(key, w)], rest[1..]))
    ensures rest[0] == ',' && ReadMembers(rest[1..]).Some? ==>
              ReadMembers(s) == Some(([(key, w)] + ReadMembers(rest[1..]).value.0, ReadMembers(rest[1..]).value.1))
  {
    hide ReadValue, ReadKey;
  }

  lemma ReadKeyBack(key: string, x: string)
    ensures ReadKey(Quote(key) + (":" + x)) == Some((key, x))
  {
    hide ReadText, Escape;
    Regroup("\"", Escape(key), "\"", ":" + x);
    var s := Quote(key) + (":" + x);
    assert s[0] == '"' && s[1..] == Escape(key) + ("\"" + (":" + x));
    ReadTextBack(key, ":" + x);
    assert (":" + x)[1..] == x;
  }

  /** The text of the first member and what is behind it. */
  lemma MembersFrom(es: seq<(string, string)>, x: string)
    requires es != []
    ensures var rest := MoreMembers(es[1..]) + ("}" + x);
            && Ends(rest) && rest != ""
            && Members(es) + ("}" + x) == Quote(es[0].0) + (":" + (es[0].1 + rest))
            && rest == if |es| == 1 then "}" + x else "," + (Members(es[1..]) + ("}" + x))
  {
    hide MoreMembers, Members, Quote, Ends;
    var rest := MoreMembers(es[1..]) + ("}" + x);
    MembersHead(es, x);
    MoreMembersStep(es[1..], x);
    MoreMembersIs(es[1..]);
    Assoc(",", Members(es[1..]), "}" + x);
    assert Member(es[0]) == Quote(es[0].0) + ":" + es[0].1;
    Regroup(Quote(es[0].0), ":", es[0].1, rest);
  }

  lemma {:induction false} MembersReadBack(v: Json, es: seq<(string, string)>, lt: Less, x: string)
    returns (ws: seq<(string, Json)>)
    requires v.Obj? && Valid(v) && es != [] && MembersOf(v, es, lt)
    ensures ReadMembers(Members(es) + ("}" + x)) == Some((ws, x)) && MembersRead(v, es, ws, lt)
    decreases v, 1, |es|
  {
    hide *;
    var rest := MoreMembers(es[1..]) + ("}" + x);
    MembersFrom(es, x);
    var first := MemberReadsBack(v, es, lt, rest);
    ReadKeyBack(es[0].0, es[0].1 + rest);
    ReadMembersStep(Members(es) + ("}" + x), es[0].0, es[0].1 + rest, first, rest);
    ws := [(es[0].0, first)];
    if |es| == 1 {
      assert rest[1..] == x;
      MembersReadStep(v, es, first, [], lt);
    } else {
      MembersOfTail(v, es, lt);
      var more := MembersReadBack(v, es[1..], lt, x);
      assert rest[1..] == Members(es[1..]) + ("}" + x);
      MembersReadStep(v, es, first, more, lt);
      ws := ws + more;
    }
  }

  lemma MembersOfTail(v: Json, es: seq<(string, string)>, lt: Less)
    requires v.Obj? && es != [] && MembersOf(v, es, lt)
    ensures MembersOf(v, es[1..], lt)
  {
    hide RenderEntries;
  }

  lemma MembersReadStep(v: Json, es: seq<(string, string)>, first: Json, more: seq<(string, Json)>, lt: Less)
    requires v.Obj? && es != [] && (if |es| == 1 then more == [] else MembersRead(v, es[1..], more, lt))
    requires Lookup(v.entries, es[0].0).Some? && Rearranged(Lookup(v.entries, es[0].0).value, first, lt)
    ensures MembersRead(v, es, [(es[0].0, first)] + more, lt)
    ensures more == [] ==> MembersRead(v, es, [(es[0].0, first)], lt)
  {
    hide Rearranged, Lookup;
    var ws := [(es[0].0, first)] + more;
    assert forall i :: 1 <= i < |ws| ==> ws[i] == more[i - 1] && es[i] == es[1..][i - 1];
    assert more == [] ==> [(es[0].0, first)] + more == [(es[0].0, first)];
  }

  /** The value of a rendered member read back. */
  lemma MemberReadsBack(v: Json, es: seq<(string, string)>, lt: Less, rest: string) returns (w: Json)
    requires v.Obj? && Valid(v) && es != [] && MembersOf(v, es, lt) && Ends(rest)
    ensures Lookup(v.entries, es[0].0).Some? && Rearranged(Lookup(v.entries, es[0].0).value, w, lt)
    ensures ReadValue(es[0].1 + rest) == Some((w, rest))
    decreases v, 0
  {
    hide Stable, Rearranged, ReadValue, Ends;
    var i := RenderedEntry(v, lt, es[0]);
    LookupAt(v.entries, i);
    w := ReadsBack(v.entries[i].1, lt, rest);
  }

  lemma ValidItem(v: Json, i: nat)
    requires v.Arr? && Valid(v) && i < |v.items|
    ensures Valid(v.items[i])
  {
  }

  // ----- main results -----

  /** Printed forms agree exactly when the values are equal up to member order. */
  lemma CanonicalForm(a: Json, b: Json, lt: Less)
    requires StrictOrder(lt) && Connected(lt) && Valid(a) && Valid(b)
    ensures Stable(a, lt) == Stable(b, lt) <==> Same(a, b)
  {
    if Stable(a, lt) == Stable(b, lt) {
      StableParses(a, b, lt, "", "");
    }
    if Same(a, b) {
      SameIsStable(a, b, lt);
    }
  }

  /** Equal contract hashes mean equal contracts, whatever the key comparison does. */
  lemma HashBindsContract(a: Json, b: Json, lt: Less, h: Hash)
    requires Valid(a) && Valid(b)
    requires HashProductContract(a, lt, h) == HashProductContract(b, lt, h)
    ensures Same(a, b) || HasCollision(h)
  {
    EqualDigests(h, Stable(a, lt), Stable(b, lt));
    if Stable(a, lt) == Stable(b, lt) {
      StableParses(a, b, lt, "", "");
    }
  }

  ghost predicate OrderInsensitive(lt: Less) {
    forall a, b :: Valid(a) && Valid(b) && Same(a, b) ==> Stable(a, lt) == Stable(b, lt)
  }

  function TwoMembers(p: string, q: string): Json {
    Obj([(p, Null), (q, Null)])
  }

  lemma SortTwo(e: (string, string), f: (string, string), lt: Less)
    requires !lt(f.0, e.0)
    ensures SortByKey([e, f], lt) == [e, f]
  {
    assert [e, f][1..] == [f] && [f][1..] == [];
    assert SortByKey([f], lt) == [f];
  }

  lemma TwoMembersRendered(p: string, q: string, lt: Less)
    requires p != q && !lt(q, p)
    ensures Valid(TwoMembers(p, q))
    ensures SortByKey(RenderEntries(TwoMembers(p, q), lt), lt) == [(p, "null"), (q, "null")]
  {
    var v := TwoMembers(p, q);
    var r := RenderEntries(v, lt);
    assert v.entries[0] == (p, Null) && v.entries[1] == (q, Null);
    assert Stable(Null, lt) == "null";
    assert r == [(p, "null"), (q, "null")];
    SortTwo(r[0], r[1], lt);
  }

  lemma TwoMembersSame(p: string, q: string)
    requires p != q
    ensures Same(TwoMembers(p, q), TwoMembers(q, p))
  {
    var a, b := TwoMembers(p, q), TwoMembers(q, p);
    assert DistinctKeys(a.entries) && DistinctKeys(b.entries);
    LookupAt(a.entries, 0);
    LookupAt(a.entries, 1);
    LookupAt(b.entries, 0);
    LookupAt(b.entries, 1);
  }

  lemma TwoMembersText(p: string, q: string, lt: Less)
    requires SortByKey(RenderEntries(TwoMembers(p, q), lt), lt) == [(p, "null"), (q, "null")]
    ensures Stable(TwoMembers(p, q), lt) == "{" + Quote(p) + ":null," + Quote(q) + ":null}"
  {
    hide Quote, SortByKey, RenderEntries;
    var es := [(p, "null"), (q, "null")];
    assert es[1..] == [(q, "null")] && es[1..][1..] == [];
    assert MoreMembers(es[1..]) == "," + (Member((q, "null")) + "");
    assert Members(es) == Member((p, "null")) + ("," + Member((q, "null")));
    assert "{" + Members(es) + "}" == "{" + Quote(p) + ":null," + Quote(q) + ":null}";
  }

  lemma TiedKeysPrintInOrder(p: string, q: string, lt: Less)
    requires p != q && !lt(p, q) && !lt(q, p)
    ensures Valid(TwoMembers(p, q)) && Valid(TwoMembers(q, p)) && Same(TwoMembers(p, q), TwoMembers(q, p))
    ensures Stable(TwoMembers(p, q), lt) == "{" + Quote(p) + ":null," + Quote(q) + ":null}"
    ensures Stable(TwoMembers(p, q), lt) != Stable(TwoMembers(q, p), lt)
  {
    var a, b := TwoMembers(p, q), TwoMembers(q, p);
    TwoMembersSame(p, q);
    TwoMembersRendered(p, q, lt);
    TwoMembersRendered(q, p, lt);
    TwoMembersText(p, q, lt);
    assert [(p, "null"), (q, "null")][0] != [(q, "null"), (p, "null")][0];
    if Stable(a, lt) == Stable(b, lt) {
      SortedRendersParse(a, b, lt, "", "");
    }
  }

  /** The printed form ignores member order for all values exactly when no two keys tie. */
  lemma OrderInsensitiveIffConnected(lt: Less)
    requires StrictOrder(lt)
    ensures OrderInsensitive(lt) <==> Connected(lt)
  {
    if Connected(lt) {
      forall a, b | Valid(a) && Valid(b) && Same(a, b) ensures Stable(a, lt) == Stable(b, lt) {
        SameIsStable(a, b, lt);
      }
    }
    if OrderInsensitive(lt) {
      forall x, y ensures x == y || lt(x, y) || lt(y, x) {
        if x != y && !lt(x, y) && !lt(y, x) {
          TiedKeysPrintInOrder(x, y, lt);
        }
      }
    }
  }
}
