/** What an Add that is refused does to the routes: they are installed before the name is looked up. */
module Refusal {
  import opened Lifecycle
  import opened Registry
  import opened Routing
  import opened Stages

  /** The routes of the root container after one turn of the Add worker, for a component with the given
      routes. */
  function RoutesAfterAdd(table: Table, stage: Stage, hooks: Hooks, handlers: Table): Table {
    if CallResult(stage, hooks) != Done then table else table + handlers
  }

  /** One turn of the Add worker of container `c`, seen from its registry and the routes of the root
      container: they are installed before the name is looked up. */
  method ActivateNext(c: Container, root: HandlerTable, nextComp: Container, hooks: Hooks, handlers: Table)
    returns (answer: AddResult)
    requires AtRest(nextComp.stage) && nextComp.Initialised() && (nextComp == c || c.stage != Submitted)
    modifies c, nextComp, root
    ensures answer == Answer(old(c.View()), nextComp.name, old(nextComp.stage), hooks)
    ensures c.View() == Activate(old(c.View()), nextComp.name, nextComp, old(nextComp.stage), hooks)
    ensures root.cHandlers == RoutesAfterAdd(old(root.cHandlers), old(nextComp.stage), hooks, handlers)
  {
    var r := c.CallFsm(nextComp, hooks);
    if r != Done {
      return ActivationFailed(r);
    }
    root.Install(handlers);
    answer := c.Enter(nextComp, hooks);
  }

  predicate Changes(table: Table, handlers: Table) {
    exists uri :: uri in handlers && (uri !in table || table[uri] != handlers[uri])
  }

  /** An Add that is answered with an error changes the routes exactly when the error is that the name is
      taken and the component brings a route that was not there as it is. */
  lemma RefusedAddChangesRoutesExactlyWhen<T>(r: Reg<T>, table: Table, name: string, stage: Stage, hooks: Hooks,
                                              handlers: Table)
    requires Answer(r, name, stage, hooks) != Added
    ensures RoutesAfterAdd(table, stage, hooks, handlers) != table
            <==> Answer(r, name, stage, hooks) == AlreadyActivated(name) && Changes(table, handlers)
  {
    if !Changes(table, handlers) {
      assert table + handlers == table;
    } else {
      var uri :| uri in handlers && (uri !in table || table[uri] != handlers[uri]);
      assert uri in table + handlers && (table + handlers)[uri] == handlers[uri];
    }
  }

  /** A component refused because its name is taken has the URI of the one that holds it. From then on it
      answers the requests at or below that URI, exactly when it serves HTTP. */
  lemma RefusedNamesakeTakesOver<T>(r: Reg<T>, table: Table, name: string, stage: Stage, hooks: Hooks,
                                    base: string, holder: nat, refused: nat, methods: seq<string>, uri: string)
    requires Answer(r, name, stage, hooks) == AlreadyActivated(name) && holder != refused
    requires base != "" && base in table && table[base] == Handler(holder, "ServeHTTP")
    requires uri == base || (base + "/") <= uri
    requires
      var after := RoutesAfterAdd(table, stage, hooks, HandlersOf(refused, base, methods));
      forall m :: |base| < m ==> !Registered(after, uri, m)
    ensures
      var after := RoutesAfterAdd(table, stage, hooks, HandlersOf(refused, base, methods));
      && ("ServeHTTP" in methods <==> Answers(after, uri, Found(Handler(refused, "ServeHTTP"))))
      && ("ServeHTTP" !in methods <==> Answers(after, uri, Found(Handler(holder, "ServeHTTP"))))
  {
    var after := RoutesAfterAdd(table, stage, hooks, HandlersOf(refused, base, methods));
    assert after == table + HandlersOf(refused, base, methods);
    if "ServeHTTP" in methods {
      DispatchesBack(table, refused, base, methods, uri);
      if Answers(after, uri, Found(Handler(holder, "ServeHTTP"))) {
        AnswerUnique(after, uri, Found(Handler(holder, "ServeHTTP")), Found(Handler(refused, "ServeHTTP")));
      }
    } else {
      BaseNotTaken(refused, base, methods);
      assert uri[..|base|] == base;
      assert uri != base ==> uri[|base|] == (base + "/")[|base|];
      assert Candidate(uri, |base|);
      assert after[base] == Handler(holder, "ServeHTTP");
      LongestAnswers(after, uri, |base|);
      if Answers(after, uri, Found(Handler(refused, "ServeHTTP"))) {
        AnswerUnique(after, uri, Found(Handler(holder, "ServeHTTP")), Found(Handler(refused, "ServeHTTP")));
      }
    }
  }

  lemma {:induction false} BaseNotTaken(owner: nat, base: string, methods: seq<string>)
    requires "ServeHTTP" !in methods
    ensures base !in HandlersOf(owner, base, methods)
  {
    if methods != [] {
      BaseNotTaken(owner, base, methods[..|methods| - 1]);
      assert |MethodUri(base, methods[|methods| - 1])| > |base|;
    }
  }
}
