/** `incErrorCount` and `clearErrorCount` of controllers/valssecret_controller.go: one
    map of counters for all objects, keyed by a string. */
module ErrorCounts {

  datatype Event = Failed(namespace: string, name: string) | Cleared(namespace: string, name: string)

  /** The failures of an object since it was last cleared. */
  function FailuresSince(history: seq<Event>, namespace: string, name: string): nat {
    if history == [] then
      0
    else
      var before := FailuresSince(history[..|history| - 1], namespace, name);
      var last := history[|history| - 1];
      if last == Failed(namespace, name) then before + 1
      else if last == Cleared(namespace, name) then 0
      else before
  }

  function Key(namespace: string, name: string): string {
    namespace + "/" + name
  }

  lemma {:induction false} KeyInjective(ns1: string, name1: string, ns2: string, name2: string)
    requires '/' !in ns1 && '/' !in ns2
    requires Key(ns1, name1) == Key(ns2, name2)
    ensures ns1 == ns2 && name1 == name2
  {
    var key := Key(ns1, name1);
    assert key[|ns1|] == '/' && key[|ns2|] == '/';
    assert key[..|ns1|] == ns1 && key[..|ns2|] == ns2;
    assert key[|ns1| + 1..] == name1 && key[|ns2| + 1..] == name2;
  }

  class ErrorCounter {
    var counts: map<string, int>
    ghost var history: seq<Event>

    /** The string-keyed map is the map from objects to their failures. */
    ghost predicate Valid()
      reads this
    {
      && (forall ns, name | '/' !in ns ::
            if FailuresSince(history, ns, name) == 0 then Key(ns, name) !in counts
            else Key(ns, name) in counts && counts[Key(ns, name)] == FailuresSince(history, ns, name))
    }

    constructor ()
      ensures Valid() && history == []
    {
      counts := map[];
      history := [];
    }

    method Inc(namespace: string, name: string) returns (count: int)
      requires Valid() && '/' !in namespace
      modifies this
      ensures Valid() && history == old(history) + [Failed(namespace, name)]
      ensures count == FailuresSince(history, namespace, name) > 0
    {
      var key := Key(namespace, name);
      counts := counts[key := (if key in counts then counts[key] else 0) + 1];
      history := history + [Failed(namespace, name)];
      Extended(old(history), Failed(namespace, name));
      count := counts[key];
    }

    method Clear(namespace: string, name: string)
      requires Valid() && '/' !in namespace
      modifies this
      ensures Valid() && history == old(history) + [Cleared(namespace, name)]
      ensures FailuresSince(history, namespace, name) == 0
    {
      history := history + [Cleared(namespace, name)];
      Extended(old(history), Cleared(namespace, name));
      if |counts| < 1 {
        return;
      }
      counts := counts - {Key(namespace, name)};
    }
  }

  /** An event changes the count of its own object and of no other, in the history
      and under the keys. */
  lemma Extended(history: seq<Event>, event: Event)
    requires '/' !in event.namespace
    ensures forall ns, name | '/' !in ns ::
      var own := ns == event.namespace && name == event.name;
      && (own <==> Key(ns, name) == Key(event.namespace, event.name))
      && FailuresSince(history + [event], ns, name)
           == if !own then FailuresSince(history, ns, name)
              else if event.Failed? then FailuresSince(history, ns, name) + 1 else 0
  {
    assert (history + [event])[..|history|] == history;
    forall ns, name | '/' !in ns && Key(ns, name) == Key(event.namespace, event.name)
      ensures ns == event.namespace && name == event.name
    {
      KeyInjective(ns, name, event.namespace, event.name);
    }
  }
}
