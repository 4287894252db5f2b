/** The values the migration code works on: the tree that `xmltodict` builds from a MODS
    document, Python's exceptions, and the dictionary operations used on that tree. */
module PyTree {
  import opened PyStr

  datatype Option<+T> = None | Some(value: T)

  /** The exceptions the modelled code can raise. */
  datatype PyError = KeyError(key: string) | AttributeError | TypeError | IndexError

  /** A Python computation: a value, or the exception it raised. */
  datatype Result<+T> = Ok(value: T) | Err(error: PyError) {
    predicate IsFailure() { Err? }

    function PropagateFailure<U>(): Result<U>
      requires Err?
    {
      Err(error)
    }

    function Extract(): T
      requires Ok?
    {
      value
    }
  }

  /** A node of the tree `xmltodict` builds: an empty element is `None`, a text-only element
      a `str`, repeated children a `list`, and an element with attributes or children a `dict`
      whose keys are child names, `@attribute` names and `#text`, in document order. */
  datatype Node = Null | Text(s: string) | List(items: seq<Node>) | Dict(entries: seq<(string, Node)>)

  type Entries = seq<(string, Node)>

  /** The keys of a Python dict are distinct. */
  predicate DistinctKeys(es: Entries) {
    forall i, j :: 0 <= i < j < |es| ==> es[i].0 != es[j].0
  }

  /** `d[k]` when it exists: the value stored under `k`. */
  function Lookup(es: Entries, k: string): (r: Option<Node>)
    ensures r.Some? <==> exists i :: 0 <= i < |es| && es[i].0 == k
    ensures r.Some? ==> exists i :: 0 <= i < |es| && es[i] == (k, r.value)
  {
    if es == [] then None
    else if es[0].0 == k then Some(es[0].1)
    else
      var r := Lookup(es[1..], k);
      assert forall i :: 1 <= i < |es| ==> es[i] == es[1..][i - 1];
      r
  }

  /** In a dict with distinct keys, the entry at position `i` is what `d[k]` finds. */
  lemma {:induction false} LookupAt(es: Entries, i: int)
    requires DistinctKeys(es)
    requires 0 <= i < |es|
    ensures Lookup(es, es[i].0) == Some(es[i].1)
  {
    if i > 0 {
      LookupAt(es[1..], i - 1);
    }
  }

  /** `d.get(k, default)` on the entries of a dict. */
  function GetOr(es: Entries, k: string, default: Node): (r: Node)
    ensures (exists i :: 0 <= i < |es| && es[i].0 == k) ==> exists i :: 0 <= i < |es| && es[i] == (k, r)
    ensures (forall i :: 0 <= i < |es| ==> es[i].0 != k) ==> r == default
  {
    match Lookup(es, k)
    case Some(v) => v
    case None => default
  }

  /** `n.get(k, default)`: only a dict has `get`. */
  function Get(n: Node, k: string, default: Node): (r: Result<Node>)
    ensures r.Ok? <==> n.Dict?
    ensures n.Dict? ==> r.value == GetOr(n.entries, k, default)
    ensures !n.Dict? ==> r == Err(AttributeError)
  {
    if n.Dict? then Ok(GetOr(n.entries, k, default)) else Err(AttributeError)
  }

  /** Python truth value: `None` and empty containers are false. */
  predicate Truthy(n: Node) {
    match n
    case Null => false
    case Text(s) => s != ""
    case List(items) => items != []
    case Dict(entries) => entries != []
  }

  /** `n or d`. */
  function Or(n: Node, d: Node): Node {
    if Truthy(n) then n else d
  }

  /** What `for x in n` visits: the items of a list, the keys of a dict, the characters of a
      string; iterating `None` raises `TypeError`. */
  function Members(n: Node): (r: Result<seq<Node>>)
    ensures r.Ok? <==> !n.Null?
    ensures n.List? ==> r == Ok(n.items)
    ensures r.Ok? ==> |r.value| == match n
      case Text(s) => |s|
      case List(items) => |items|
      case Dict(entries) => |entries|
      case Null => 0
    ensures n.Text? ==> forall i :: 0 <= i < |n.s| ==> r.value[i] == Text([n.s[i]])
    ensures n.Dict? ==> forall i :: 0 <= i < |n.entries| ==> r.value[i] == Text(n.entries[i].0)
  {
    match n
    case Null => Err(TypeError)
    case Text(s) => Ok(seq(|s|, i requires 0 <= i < |s| => Text([s[i]])))
    case List(items) => Ok(items)
    case Dict(entries) => Ok(seq(|entries|, i requires 0 <= i < |entries| => Text(entries[i].0)))
  }

  /** The members of `d.get(k, default)` after a lone dict has been wrapped in a list, as
      `if isinstance(d.get(k), dict): d[k] = [d[k]]` followed by `for x in d.get(k, default)`. */
  function Coerced(es: Entries, k: string, default: Node): (r: Result<seq<Node>>)
    ensures (Lookup(es, k).Some? && Lookup(es, k).value.Dict?) ==> r == Ok([Lookup(es, k).value])
    ensures (Lookup(es, k).Some? && !Lookup(es, k).value.Dict?) ==> r == Members(Lookup(es, k).value)
    ensures Lookup(es, k).None? ==> r == Members(default)
  {
    match Lookup(es, k)
    case Some(v) => if v.Dict? then Ok([v]) else Members(v)
    case None => Members(default)
  }

  /** Python's `repr` (strings are quoted with `'` and not escaped). */
  function Repr(n: Node): string
    decreases n
  {
    match n
    case Null => "None"
    case Text(s) => "'" + s + "'"
    case List(items) =>
      "[" + Join(", ", seq(|items|, i requires 0 <= i < |items| => Repr(items[i]))) + "]"
    case Dict(entries) =>
      "{" + Join(", ", seq(|entries|, i requires 0 <= i < |entries| =>
                               "'" + entries[i].0 + "': " + Repr(entries[i].1))) + "}"
  }

  /** Python's `str`, as used by an f-string. */
  function Str(n: Node): (r: string)
    ensures n.Text? ==> r == n.s
  {
    if n.Text? then n.s else Repr(n)
  }

  /** The strings of a sequence of nodes that are all text. */
  function Texts(xs: seq<Node>): (r: seq<string>)
    requires forall i :: 0 <= i < |xs| ==> xs[i].Text?
    ensures |r| == |xs| && forall i :: 0 <= i < |xs| ==> r[i] == xs[i].s
  {
    seq(|xs|, i requires 0 <= i < |xs| => xs[i].s)
  }

  /** `sep.join(xs)`: succeeds exactly when every item is a string. */
  function JoinTexts(sep: string, xs: seq<Node>): (r: Result<string>)
    ensures r.Ok? <==> forall i :: 0 <= i < |xs| ==> xs[i].Text?
    ensures r.Ok? ==> r.value == Join(sep, Texts(xs))
    ensures r.Err? ==> r.error == TypeError
  {
    if forall i :: 0 <= i < |xs| ==> xs[i].Text? then Ok(Join(sep, Texts(xs))) else Err(TypeError)
  }
}
