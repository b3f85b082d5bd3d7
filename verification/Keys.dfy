/** The string keys of the client's cache and the views they stand for. */
module Keys {
  /** What one cache entry holds: a listing, or one rendering of one object. */
  datatype View =
    | Namespaces
    | Resources
    | Listing(ns: string, res: string)
    | Yaml(ns: string, res: string, name: string)
    | Json(ns: string, res: string, name: string)
    | Describe(ns: string, res: string, name: string)
    | Data(ns: string, res: string, name: string)
    | Logs(ns: string, name: string)

  function Key(v: View): string {
    match v
    case Namespaces => "namespaces"
    case Resources => "resources"
    case Listing(ns, res) => "list:" + Pair(ns, res)
    case Yaml(ns, res, name) => "yaml:" + Pair(ns, Pair(res, name))
    case Json(ns, res, name) => "json:" + Pair(ns, Pair(res, name))
    case Describe(ns, res, name) => "describe:" + Pair(ns, Pair(res, name))
    case Data(ns, res, name) => "data:" + Pair(ns, Pair(res, name))
    case Logs(ns, name) => "logs:" + Pair(ns, name)
  }

  function Pair(a: string, b: string): string { a + ":" + b }

  predicate ColonFree(s: string) { ':' !in s }

  /** Namespace and resource names come from the API server, where neither may hold a
      colon; an object's name may. */
  predicate WellNamed(v: View) {
    match v
    case Namespaces => true
    case Resources => true
    case Listing(ns, res) => ColonFree(ns) && ColonFree(res)
    case Yaml(ns, res, _) => ColonFree(ns) && ColonFree(res)
    case Json(ns, res, _) => ColonFree(ns) && ColonFree(res)
    case Describe(ns, res, _) => ColonFree(ns) && ColonFree(res)
    case Data(ns, res, _) => ColonFree(ns) && ColonFree(res)
    case Logs(ns, _) => ColonFree(ns)
  }

  /** The views InvalidateObject names. */
  function ViewsOf(ns: string, res: string, name: string): set<View> {
    {Yaml(ns, res, name), Json(ns, res, name), Describe(ns, res, name), Data(ns, res, name),
     Logs(ns, name), Listing(ns, res)}
  }

  function KeysOf(ns: string, res: string, name: string): set<string> {
    {Key(Yaml(ns, res, name)), Key(Json(ns, res, name)), Key(Describe(ns, res, name)),
     Key(Data(ns, res, name)), Key(Logs(ns, name)), Key(Listing(ns, res))}
  }

  lemma PairInjective(a: string, b: string, a': string, b': string)
    requires ColonFree(a) && ColonFree(a') && Pair(a, b) == Pair(a', b')
    ensures a == a' && b == b'
  {
    var p := Pair(a, b);
    assert p[|a|] == ':' && p[|a'|] == ':';
    assert p[..|a|] == a && p[..|a'|] == a';
    assert forall i :: 0 <= i < |a| ==> p[i] == a[i] && a[i] != ':';
    assert forall i :: 0 <= i < |a'| ==> p[i] == a'[i] && a'[i] != ':';
    assert |a| == |a'|;
    assert p[|a| + 1..] == b && p[|a'| + 1..] == b';
  }

  // The first two letters of a key tell the kinds of view apart.
  function Kind(v: View): nat {
    match v
    case Namespaces => 0
    case Resources => 1
    case Listing(_, _) => 2
    case Yaml(_, _, _) => 3
    case Json(_, _, _) => 4
    case Describe(_, _, _) => 5
    case Data(_, _, _) => 6
    case Logs(_, _) => 7
  }

  function KindOfKey(k: string): nat {
    if |k| < 2 then 8
    else if k[0] == 'n' then 0
    else if k[0] == 'r' then 1
    else if k[0] == 'l' && k[1] == 'i' then 2
    else if k[0] == 'y' then 3
    else if k[0] == 'j' then 4
    else if k[0] == 'd' && k[1] == 'e' then 5
    else if k[0] == 'd' then 6
    else if k[0] == 'l' then 7
    else 8
  }

  lemma KeyShowsKind(v: View)
    ensures KindOfKey(Key(v)) == Kind(v)
  {
  }

  lemma AppendInjective(p: string, s: string, s': string)
    requires p + s == p + s'
    ensures s == s'
  {
    assert (p + s)[|p|..] == s && (p + s')[|p|..] == s';
  }

  lemma TripleInjective(p: string, v: (string, string, string), w: (string, string, string))
    requires ColonFree(v.0) && ColonFree(w.0) && ColonFree(v.1) && ColonFree(w.1)
    requires p + Pair(v.0, Pair(v.1, v.2)) == p + Pair(w.0, Pair(w.1, w.2))
    ensures v == w
  {
    AppendInjective(p, Pair(v.0, Pair(v.1, v.2)), Pair(w.0, Pair(w.1, w.2)));
    PairInjective(v.0, Pair(v.1, v.2), w.0, Pair(w.1, w.2));
    PairInjective(v.1, v.2, w.1, w.2);
  }

  /** Distinct views have distinct keys, so string keys act as tuple keys. */
  lemma KeyInjective(v: View, w: View)
    requires WellNamed(v) && WellNamed(w)
    ensures Key(v) == Key(w) <==> v == w
  {
    if Key(v) == Key(w) {
      KeyShowsKind(v);
      KeyShowsKind(w);
      match v
      case Namespaces =>
      case Resources =>
      case Listing(a, b) =>
        AppendInjective("list:", Pair(a, b), Pair(w.ns, w.res));
        PairInjective(a, b, w.ns, w.res);
      case Yaml(a, b, c) => TripleInjective("yaml:", (a, b, c), (w.ns, w.res, w.name));
      case Json(a, b, c) => TripleInjective("json:", (a, b, c), (w.ns, w.res, w.name));
      case Describe(a, b, c) => TripleInjective("describe:", (a, b, c), (w.ns, w.res, w.name));
      case Data(a, b, c) => TripleInjective("data:", (a, b, c), (w.ns, w.res, w.name));
      case Logs(a, b) =>
        AppendInjective("logs:", Pair(a, b), Pair(w.ns, w.name));
        PairInjective(a, b, w.ns, w.name);
    }
  }

  /** Without the naming rule the keys do collide: a colon moves between the two parts. */
  lemma KeyCollision()
    ensures Key(Listing("a:b", "c")) == Key(Listing("a", "b:c"))
    ensures Listing("a:b", "c") != Listing("a", "b:c")
  {
  }

  /** Deleting KeysOf an object deletes the keys of exactly that object's views. */
  lemma KeysOfExact(ns: string, res: string, name: string, v: View)
    requires ColonFree(ns) && ColonFree(res) && WellNamed(v)
    ensures Key(v) in KeysOf(ns, res, name) <==> v in ViewsOf(ns, res, name)
  {
    KeyInjective(v, Yaml(ns, res, name));
    KeyInjective(v, Json(ns, res, name));
    KeyInjective(v, Describe(ns, res, name));
    KeyInjective(v, Data(ns, res, name));
    KeyInjective(v, Logs(ns, name));
    KeyInjective(v, Listing(ns, res));
  }
}
