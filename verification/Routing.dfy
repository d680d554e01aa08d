/** HTTP routes: the URIs derived from a component's place in its containers, the table of the root
    container, and the longest-prefix lookup in it. */
module Routing {
  /** A handler function: a method of a component. */
  datatype Handler = Handler(owner: nat, name: string)

  type Table = map<string, Handler>

  // ---------- lookup ----------

  /** OutOfRange is the slice expression that panics when no separator is left. */
  datatype Lookup = Found(handler: Handler) | NotFound | OutOfRange

  /** The prefix of length `n` is the URI itself or ends just before a separator. */
  predicate Candidate(uri: string, n: int) {
    0 < n <= |uri| && (n == |uri| || uri[n] == '/')
  }

  ghost predicate Registered(table: Table, uri: string, n: int) {
    Candidate(uri, n) && uri[..n] in table
  }

  ghost predicate Longest(table: Table, uri: string, n: int) {
    Registered(table, uri, n) && forall m :: n < m ==> !Registered(table, uri, m)
  }

  /** The lookup's answer: the handler of the longest registered candidate; with none registered,
      nothing, or a panic when the URI does not start with a separator. */
  ghost predicate Answers(table: Table, uri: string, r: Lookup) {
    match r
    case Found(h) =>
      exists n :: Longest(table, uri, n) && table[uri[..n]] == h
    case NotFound => (forall m :: !Registered(table, uri, m)) && (uri == "" || uri[0] == '/')
    case OutOfRange => (forall m :: !Registered(table, uri, m)) && uri != "" && uri[0] != '/'
  }

  lemma AnswerUnique(table: Table, uri: string, r: Lookup, q: Lookup)
    requires Answers(table, uri, r) && Answers(table, uri, q)
    ensures r == q
  {
    if r.Found? && q.Found? {
      var n :| Longest(table, uri, n) && table[uri[..n]] == r.handler;
      var k :| Longest(table, uri, k) && table[uri[..k]] == q.handler;
      assert n == k;
    }
  }

  lemma LongestAnswers(table: Table, uri: string, n: int)
    requires Registered(table, uri, n) && forall m :: n < m ==> !Registered(table, uri, m)
    ensures Answers(table, uri, Found(table[uri[..n]]))
  {
  }

  /** The position of the last separator, or -1. */
  function LastSlash(s: string): (i: int)
    ensures -1 <= i < |s|
    ensures 0 <= i ==> s[i] == '/'
    ensures forall j :: i < j < |s| ==> s[j] != '/'
  {
    if s == "" then -1
    else if s[|s| - 1] == '/' then |s| - 1
    else LastSlash(s[..|s| - 1])
  }

  class HandlerTable {
    var cHandlers: Table

    constructor ()
      ensures cHandlers == map[]
    {
      cHandlers := map[];
    }

    method GetHttpHandler(uri: string) returns (r: Lookup)
      ensures Answers(cHandlers, uri, r)
    {
      var rest := uri;
      while 0 < |rest|
        invariant |rest| <= |uri| && rest == uri[..|rest|]
        invariant rest == "" || Candidate(uri, |rest|)
        invariant rest == "" && uri != "" ==> uri[0] == '/'
        invariant forall m :: |rest| < m ==> !Registered(cHandlers, uri, m)
        decreases |rest|
      {
        if rest in cHandlers {
          assert Longest(cHandlers, uri, |rest|);
          return Found(cHandlers[rest]);
        }
        var last := LastSlash(rest);
        if last < 0 {
          forall m
            ensures !Registered(cHandlers, uri, m)
          {
            assert 0 < m < |rest| ==> rest[m] != '/';
          }
          return OutOfRange;
        }
        forall m | last < m <= |rest|
          ensures !Registered(cHandlers, uri, m)
        {
          assert m < |rest| ==> rest[m] != '/';
        }
        rest := rest[..last];
      }
      return NotFound;
    }

    /** The loop of toCanonical, on the root container: the routes of a new component are added, over
        whatever was there. */
    method Install(handlers: Table)
      modifies this
      ensures cHandlers == old(cHandlers) + handlers
    {
      var left := handlers.Keys;
      while left != {}
        invariant left <= handlers.Keys
        invariant cHandlers == old(cHandlers) + map uri | uri in handlers && uri !in left :: handlers[uri]
        decreases left
      {
        var uri :| uri in left;
        cHandlers := cHandlers[uri := handlers[uri]];
        left := left - {uri};
      }
    }

    /** removeHttpHandlers, on the container that stops the component. */
    method RemoveHttpHandlers(handlers: Table)
      modifies this
      ensures cHandlers == old(cHandlers) - handlers.Keys
    {
      var left := handlers.Keys;
      while left != {}
        invariant left <= handlers.Keys
        invariant cHandlers == old(cHandlers) - (handlers.Keys - left)
        decreases left
      {
        var uri :| uri in left;
        cHandlers := cHandlers - {uri};
        left := left - {uri};
      }
    }
  }

  // ---------- URIs ----------

  function Lower(c: char): char { if 'A' <= c <= 'Z' then c - 'A' + 'a' else c }

  function ToLower(s: string): string { seq(|s|, i requires 0 <= i < |s| => Lower(s[i])) }

  /** An upper-case letter and the same in lower case; the codes of the two are 32 apart. */
  predicate UpperOf(c: char, d: char) { 65 <= c as int <= 90 && d as int == c as int + 32 }

  /** The strings differ at most in the case of their letters. */
  ghost predicate SameButCase(a: string, b: string) {
    |a| == |b| && forall i :: 0 <= i < |a| ==> a[i] == b[i] || UpperOf(a[i], b[i]) || UpperOf(b[i], a[i])
  }

  lemma LowerSame(c: char, d: char)
    ensures Lower(c) == Lower(d) <==> c == d || UpperOf(c, d) || UpperOf(d, c)
  {
  }

  lemma ToLowerSame(a: string, b: string)
    ensures ToLower(a) == ToLower(b) <==> SameButCase(a, b)
  {
    assert |ToLower(a)| == |a| && |ToLower(b)| == |b|;
    if |a| == |b| {
      forall i | 0 <= i < |a|
        ensures ToLower(a)[i] == ToLower(b)[i] <==> a[i] == b[i] || UpperOf(a[i], b[i]) || UpperOf(b[i], a[i])
      {
        LowerSame(a[i], b[i]);
      }
    }
  }

  /** An unreserved character, section 2.3 of RFC 3986. */
  predicate Unreserved(c: char) {
    'a' <= c <= 'z' || 'A' <= c <= 'Z' || '0' <= c <= '9' || c == '-' || c == '.' || c == '_' || c == '~'
  }

  predicate ValidName(name: string) { 0 < |name| && forall c :: c in name ==> Unreserved(c) }

  predicate ValidPath(names: seq<string>) { forall name :: name in names ==> ValidName(name) }

  function Lowered(names: seq<string>): seq<string> { seq(|names|, i requires 0 <= i < |names| => ToLower(names[i])) }

  /** The base URI of a component, given the names from its topmost container down to its own. */
  function BaseUri(names: seq<string>): string {
    if names == [] then "" else BaseUri(names[..|names| - 1]) + "/" + ToLower(names[|names| - 1])
  }

  /** The segments of a URI. */
  function Segments(uri: string): seq<string>
    decreases |uri|
  {
    var last := LastSlash(uri);
    if last < 0 then [] else Segments(uri[..last]) + [uri[last + 1..]]
  }

  lemma LastSlashOf(front: string, name: string)
    requires forall c :: c in name ==> c != '/'
    ensures LastSlash(front + "/" + name) == |front|
    ensures (front + "/" + name)[..|front|] == front && (front + "/" + name)[|front| + 1..] == name
  {
    var s := front + "/" + name;
    assert s[|front|] == '/';
    forall j | |front| < j < |s|
      ensures s[j] != '/'
    {
      assert s[j] == name[j - |front| - 1] && s[j] in name;
    }
  }

  /** No name contains a separator, as no valid name does. */
  predicate Separable(names: seq<string>) { forall name :: name in names ==> '/' !in name }

  lemma ValidSeparable(names: seq<string>)
    requires ValidPath(names)
    ensures Separable(names)
  {
    assert forall name :: name in names ==> ValidName(name);
  }

  lemma LoweredName(name: string)
    requires '/' !in name
    ensures forall c :: c in ToLower(name) ==> c != '/'
  {
    forall c | c in ToLower(name)
      ensures c != '/'
    {
      var i :| 0 <= i < |name| && c == Lower(name[i]);
      assert name[i] in name;
    }
  }

  lemma LoweredGrows(names: seq<string>)
    requires names != []
    ensures Lowered(names) == Lowered(names[..|names| - 1]) + [ToLower(names[|names| - 1])]
  {
  }

  /** Splitting undoes joining, up to letter case. */
  lemma {:induction false} SplitJoin(names: seq<string>)
    requires Separable(names)
    ensures Segments(BaseUri(names)) == Lowered(names)
    decreases |names|
  {
    if names != [] {
      var front, name := names[..|names| - 1], names[|names| - 1];
      assert name in names;
      LoweredName(name);
      LastSlashOf(BaseUri(front), ToLower(name));
      SplitJoin(front);
      LoweredGrows(names);
    }
  }

  lemma {:induction false} JoinLowered(a: seq<string>, b: seq<string>)
    requires Lowered(a) == Lowered(b)
    ensures BaseUri(a) == BaseUri(b)
    decreases |a|
  {
    assert |a| == |Lowered(a)| == |b|;
    if a != [] {
      var n := |a| - 1;
      assert Lowered(a[..n]) == Lowered(a)[..n] == Lowered(b[..n]);
      assert ToLower(a[n]) == Lowered(a)[n] == Lowered(b)[n] == ToLower(b[n]);
      JoinLowered(a[..n], b[..n]);
    }
  }

  lemma SameUriExactlyWhen(a: seq<string>, b: seq<string>)
    requires Separable(a) && Separable(b)
    ensures BaseUri(a) == BaseUri(b) <==> Lowered(a) == Lowered(b)
  {
    SplitJoin(a);
    SplitJoin(b);
    if Lowered(a) == Lowered(b) {
      JoinLowered(a, b);
    }
  }

  /** Two components have the same base URI exactly when their paths differ at most in case. */
  lemma BaseUriInjective(a: seq<string>, b: seq<string>)
    requires ValidPath(a) && ValidPath(b)
    ensures BaseUri(a) == BaseUri(b) <==> Lowered(a) == Lowered(b)
  {
    ValidSeparable(a);
    ValidSeparable(b);
    SameUriExactlyWhen(a, b);
  }

  class Component {
    const id: nat
    const name: string
    var container: Component?
    var isNonRestEntity: bool
    var uri: string

    constructor (id: nat, name: string)
      ensures this.id == id && this.name == name && container == null && !isNonRestEntity && uri == ""
    {
      this.id, this.name := id, name;
      container, isNonRestEntity, uri := null, false, "";
    }
  }

  /** The containers of a component, from its own outwards, end at one without a container. */
  ghost predicate Chain(first: Component?, chain: seq<Component>)
    reads chain
    decreases |chain|
  {
    if chain == [] then first == null else first == chain[0] && Chain(chain[0].container, chain[1..])
  }

  /** The names from the topmost container down. */
  function TopDown(chain: seq<Component>): seq<string> {
    if chain == [] then [] else TopDown(chain[1..]) + [chain[0].name]
  }

  /** The URI under which a handler method is registered. */
  function MethodUri(base: string, name: string): string {
    if name == "ServeHTTP" then base else base + "/" + ToLower(name)
  }

  function HandlersOf(owner: nat, base: string, names: seq<string>): Table {
    if names == [] then map[]
    else
      var name := names[|names| - 1];
      HandlersOf(owner, base, names[..|names| - 1])[MethodUri(base, name) := Handler(owner, name)]
  }

  /** The loop that collects the lower-case names of the containers, innermost first. */
  method CollectPaths(comp: Component, ghost chain: seq<Component>) returns (paths: seq<string>)
    requires Chain(comp.container, chain)
    ensures |paths| == |chain| && forall i :: 0 <= i < |paths| ==> paths[i] == ToLower(chain[i].name)
  {
    var rootC := comp.container;
    paths := [];
    ghost var left := chain;
    while rootC != null
      invariant Chain(rootC, left) && |paths| + |left| == |chain|
      invariant left == chain[|paths|..]
      invariant forall i :: 0 <= i < |paths| ==> paths[i] == ToLower(chain[i].name)
      decreases |left|
    {
      paths := paths + [ToLower(rootC.name)];
      rootC := rootC.container;
      left := left[1..];
    }
  }

  lemma {:induction false} TopDownEnds(chain: seq<Component>, k: nat)
    requires k < |chain|
    ensures TopDown(chain[k..]) == TopDown(chain[k + 1..]) + [chain[k].name]
  {
    assert chain[k..][1..] == chain[k + 1..];
  }

  lemma BaseUriGrows(above: seq<string>, name: string)
    ensures BaseUri(above + [name]) == BaseUri(above) + "/" + ToLower(name)
    ensures BaseUri(above + [name]) + "/" == (BaseUri(above) + "/") + (ToLower(name) + "/")
    ensures BaseUri(above + [name]) == (BaseUri(above) + "/") + ToLower(name)
  {
    assert (above + [name])[..|above|] == above;
  }

  /** The URI built by string concatenation is the base URI of the path from the topmost container. */
  method DeriveUri(comp: Component, ghost chain: seq<Component>) returns (cURI: string)
    requires Chain(comp.container, chain)
    ensures cURI == BaseUri(TopDown(chain) + [comp.name])
  {
    var paths := CollectPaths(comp, chain);
    cURI := "/";
    var i := |paths|;
    while 0 < i
      invariant 0 <= i <= |paths|
      invariant cURI == BaseUri(TopDown(chain[i..])) + "/"
    {
      i := i - 1;
      TopDownEnds(chain, i);
      BaseUriGrows(TopDown(chain[i + 1..]), chain[i].name);
      cURI := cURI + (paths[i] + "/");
    }
    cURI := cURI + ToLower(comp.name);
    assert chain[0..] == chain;
    BaseUriGrows(TopDown(chain), comp.name);
  }

  /** The routes of a component; `names` are its methods with the signature of an HTTP handler. */
  method DeriveHttpHandlers(comp: Component, names: seq<string>, ghost chain: seq<Component>) returns (handlers: Table)
    requires Chain(comp.container, chain)
    modifies comp`uri
    ensures
      var base := BaseUri(TopDown(chain) + [comp.name]);
      && handlers == (if comp.isNonRestEntity then map[] else HandlersOf(comp.id, base, names))
      && comp.uri == (if !comp.isNonRestEntity && "ServeHTTP" in names then base else old(comp.uri))
  {
    if comp.isNonRestEntity {
      return map[];
    }
    var cURI := DeriveUri(comp, chain);
    handlers := map[];
    for i := 0 to |names|
      invariant handlers == HandlersOf(comp.id, cURI, names[..i])
      invariant comp.uri == if "ServeHTTP" in names[..i] then cURI else old(comp.uri)
    {
      assert names[..i + 1][..i] == names[..i];
      if names[i] == "ServeHTTP" {
        handlers := handlers[cURI := Handler(comp.id, names[i])];
        comp.uri := cURI;
      } else {
        var handlerURI := cURI + "/" + ToLower(names[i]);
        handlers := handlers[handlerURI := Handler(comp.id, names[i])];
      }
    }
    assert names[..|names|] == names;
  }

  // ---------- dispatch ----------

  lemma {:induction false} HandlersAt(owner: nat, base: string, names: seq<string>)
    ensures
      var handlers := HandlersOf(owner, base, names);
      "ServeHTTP" in names ==> base in handlers && handlers[base] == Handler(owner, "ServeHTTP")
    decreases |names|
  {
    if names != [] {
      var front, name := names[..|names| - 1], names[|names| - 1];
      HandlersAt(owner, base, front);
      if name != "ServeHTTP" {
        assert |MethodUri(base, name)| > |base|;
        assert "ServeHTTP" in names ==> "ServeHTTP" in front;
      }
    }
  }

  /** No other method has its URI. */
  predicate Alone(base: string, names: seq<string>, name: string) {
    forall other :: other in names && other != name ==> MethodUri(base, other) != MethodUri(base, name)
  }

  /** Every method that has its URI for itself is found there. */
  lemma {:induction false} MethodAt(owner: nat, base: string, names: seq<string>, name: string)
    requires name in names && Alone(base, names, name)
    ensures
      var handlers, uri := HandlersOf(owner, base, names), MethodUri(base, name);
      uri in handlers && handlers[uri] == Handler(owner, name)
    decreases |names|
  {
    var front, last := names[..|names| - 1], names[|names| - 1];
    assert last in names;
    if last != name {
      assert name in front;
      assert forall other :: other in front ==> other in names;
      MethodAt(owner, base, front, name);
    }
  }

  /** Whatever is found in the table is one of the methods, under its own URI, and every method's URI is there. */
  lemma {:induction false} RoutesAre(owner: nat, base: string, names: seq<string>)
    ensures
      var handlers := HandlersOf(owner, base, names);
      && (forall name :: name in names ==> MethodUri(base, name) in handlers)
      && (forall uri :: uri in handlers ==>
            handlers[uri].owner == owner && handlers[uri].name in names && uri == MethodUri(base, handlers[uri].name))
    decreases |names|
  {
    if names != [] {
      var front, last := names[..|names| - 1], names[|names| - 1];
      RoutesAre(owner, base, front);
      var handlers := HandlersOf(owner, base, names);
      forall name | name in names
        ensures MethodUri(base, name) in handlers
      {
        assert name == last || name in front;
      }
    }
  }

  /** A handler method has its URI for itself exactly when no other one has its name up to case; ServeHTTP
      always has. */
  lemma AloneExactlyWhen(path: seq<string>, names: seq<string>, name: string)
    requires ValidPath(path) && name in names && forall n :: n in names ==> Ascii(n) && '/' !in n && n != ""
    ensures Alone(BaseUri(path), names, name)
            <==> (name == "ServeHTTP"
                  || forall other :: other in names && other != name && other != "ServeHTTP" ==>
                       !SameButCase(other, name))
  {
    forall other | other in names && other != name
      ensures MethodUri(BaseUri(path), other) == MethodUri(BaseUri(path), name)
              <==> name != "ServeHTTP" && other != "ServeHTTP" && SameButCase(other, name)
    {
      if name != "ServeHTTP" && other != "ServeHTTP" {
        MethodHidesChildExactlyWhen(path, other, name);
        ToLowerSame(other, name);
      } else {
        assert |MethodUri(BaseUri(path), other)| != |MethodUri(BaseUri(path), name)|;
      }
    }
  }

  /** A request at or below the URI that a handler method has for itself, with no longer prefix registered, is
      given to that method, whatever was registered before it. */
  lemma DispatchesTo(table: Table, owner: nat, base: string, names: seq<string>, name: string, uri: string)
    requires base != "" && name in names && Alone(base, names, name)
    requires uri == MethodUri(base, name) || (MethodUri(base, name) + "/") <= uri
    requires forall m :: |MethodUri(base, name)| < m ==> !Registered(table + HandlersOf(owner, base, names), uri, m)
    ensures Answers(table + HandlersOf(owner, base, names), uri, Found(Handler(owner, name)))
  {
    var at := MethodUri(base, name);
    MethodAt(owner, base, names, name);
    assert uri[..|at|] == at;
    assert uri != at ==> uri[|at|] == (at + "/")[|at|];
    LongestAnswers(table + HandlersOf(owner, base, names), uri, |at|);
  }

  /** A request at or below a component's URI, with no longer prefix registered, is given to its
      ServeHTTP, whatever was registered before it. */
  lemma DispatchesBack(table: Table, owner: nat, base: string, names: seq<string>, uri: string)
    requires base != "" && "ServeHTTP" in names
    requires uri == base || (base + "/") <= uri
    requires forall m :: |base| < m ==> !Registered(table + HandlersOf(owner, base, names), uri, m)
    ensures Answers(table + HandlersOf(owner, base, names), uri, Found(Handler(owner, "ServeHTTP")))
  {
    HandlersAt(owner, base, names);
    assert uri[..|base|] == base;
    assert uri != base ==> uri[|base|] == (base + "/")[|base|];
    LongestAnswers(table + HandlersOf(owner, base, names), uri, |base|);
  }

  /** The path that a handler method stands for: that of its component, followed by its own name unless it
      is ServeHTTP. */
  function RoutePath(names: seq<string>, name: string): seq<string> {
    if name == "ServeHTTP" then names else names + [name]
  }

  /** A handler method has the URI that a component with that path would have. */
  lemma MethodUriIsPathUri(names: seq<string>, name: string)
    ensures MethodUri(BaseUri(names), name) == BaseUri(RoutePath(names, name))
  {
    assert (names + [name])[..|names|] == names;
  }

  /** Lower-casing is that of ASCII letters, which is all there is in a valid name. */
  predicate Ascii(name: string) { forall c :: c in name ==> c < 128 as char }

  /** Two routes, of any components and any of their handler methods, have one URI exactly when the paths
      they stand for differ at most in case. */
  lemma RoutesCollideExactlyWhen(a: seq<string>, m: string, b: seq<string>, n: string)
    requires ValidPath(a) && ValidPath(b) && Ascii(m) && Ascii(n) && '/' !in m && '/' !in n
    ensures MethodUri(BaseUri(a), m) == MethodUri(BaseUri(b), n)
            <==> Lowered(RoutePath(a, m)) == Lowered(RoutePath(b, n))
  {
    MethodUriIsPathUri(a, m);
    MethodUriIsPathUri(b, n);
    ValidSeparable(a);
    ValidSeparable(b);
    assert Separable(RoutePath(a, m)) && Separable(RoutePath(b, n));
    SameUriExactlyWhen(RoutePath(a, m), RoutePath(b, n));
  }

  /** So a handler method shares the URI of a component added to its own exactly when the names agree up to
      case, and those of two methods of one component under the same condition. */
  lemma MethodHidesChildExactlyWhen(names: seq<string>, name: string, other: string)
    requires ValidPath(names) && name != "ServeHTTP" && other != "ServeHTTP"
    requires Ascii(name) && Ascii(other) && '/' !in name && '/' !in other
    ensures MethodUri(BaseUri(names), name) == BaseUri(names + [other]) <==> ToLower(name) == ToLower(other)
    ensures MethodUri(BaseUri(names), name) == MethodUri(BaseUri(names), other) <==> ToLower(name) == ToLower(other)
  {
    RoutesCollideExactlyWhen(names, name, names, other);
    MethodUriIsPathUri(names, other);
    LastOfPaths(names, name, other);
  }

  lemma LastOfPaths(names: seq<string>, name: string, other: string)
    ensures Lowered(names + [name]) == Lowered(names + [other]) <==> ToLower(name) == ToLower(other)
  {
    var n := |names|;
    assert (names + [name])[..n] == names && (names + [other])[..n] == names;
    LoweredGrows(names + [name]);
    LoweredGrows(names + [other]);
    assert Lowered(names + [name])[n] == ToLower(name) && Lowered(names + [other])[n] == ToLower(other);
  }

  /** A component stopped by container `c`: its routes are gone from the root table exactly when `c` is
      the root, or when they were not there. */
  method StopServing(root: HandlerTable, c: HandlerTable, handlers: Table)
    modifies c
    ensures c == root ==> root.cHandlers == old(root.cHandlers) - handlers.Keys
    ensures c != root ==> root.cHandlers == old(root.cHandlers)
    ensures (forall uri :: uri in handlers ==> uri !in root.cHandlers)
            <==> c == root || forall uri :: uri in handlers ==> uri !in old(root.cHandlers)
  {
    c.RemoveHttpHandlers(handlers);
  }
}
