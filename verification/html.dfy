/** The part of the HTML document the injector sees: an `<img>` element is
    its attribute map, and an attribute that is not there reads as "". */
module Html {

  /** The attributes of one `<img>` element, by name. */
  type Node = map<string, string>

  /** `getAttribute(name)`: the attribute's value, or "" when it is absent. */
  function Attr(n: Node, name: string): (v: string)
    ensures name in n ==> v == n[name]
    ensures v != "" ==> name in n
  {
    if name in n then n[name] else ""
  }

  /** `setAttribute(name, value)`. */
  function SetAttr(n: Node, name: string, value: string): (r: Node)
    ensures Attr(r, name) == value
    ensures AgreeExcept(n, r, {name})
    ensures n.Keys <= r.Keys
  {
    n[name := value]
  }

  /** `n` and `m` hold the same attributes with the same values, except
      possibly those named in `changed`. */
  ghost predicate AgreeExcept(n: Node, m: Node, changed: set<string>) {
    forall a :: a !in changed ==> (a in n <==> a in m) && (a in n ==> n[a] == m[a])
  }

  /** Allowing more attributes to differ keeps the agreement. */
  lemma AgreeExceptGrows(n: Node, m: Node, c: set<string>, d: set<string>)
    requires AgreeExcept(n, m, c) && c <= d
    ensures AgreeExcept(n, m, d)
  {
  }

  /** Agreement outside the same set of attributes is transitive. */
  lemma AgreeExceptTrans(n: Node, m: Node, o: Node, c: set<string>)
    requires AgreeExcept(n, m, c) && AgreeExcept(m, o, c)
    ensures AgreeExcept(n, o, c)
  {
  }
}
