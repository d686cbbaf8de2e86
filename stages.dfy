/**
 * The shape shared by the installer's registry stages: walk the configured entries in order,
 * let each one act on the registry and the command log, and store the value it produces under
 * its uid (a Python `dict` assignment). An entry whose action fails stops the stage, leaving
 * the registry and the log as they were after the entries before it.
 */
module Stages {
  import opened Wrappers
  import opened Registry

  /**
   * What one entry does, given its number, the registry so far, the log so far, its uid and
   * its configuration: the value to store and the new log, or None where the program stops.
   */
  type Action<!V, -C, !L> = (nat, Entries<V>, seq<L>, string, C) -> Option<(V, seq<L>)>

  /** Where a stage ends: the registry, the log, and whether every entry was handled. */
  datatype Outcome<V, L> = Outcome(entries: Entries<V>, log: seq<L>, completed: bool)

  /** The entries in order, numbered from `next`. */
  function Run<V, C, L>(es: Entries<V>, log: seq<L>, items: seq<(string, C)>, next: nat,
                        act: Action<V, C, L>): Outcome<V, L>
    decreases |items|
  {
    if |items| == 0 then Outcome(es, log, true)
    else
      match act(next, es, log, items[0].0, items[0].1)
      case None => Outcome(es, log, false)
      case Some(r) => Run(Put(es, items[0].0, r.0), r.1, items[1..], next + 1, act)
  }

  /** Running two lists one after the other is running their concatenation. */
  lemma {:induction false} RunAppend<V, C, L>(es: Entries<V>, log: seq<L>, pre: seq<(string, C)>,
                                             post: seq<(string, C)>, next: nat, act: Action<V, C, L>)
    ensures var m := Run(es, log, pre, next, act);
      Run(es, log, pre + post, next, act)
        == if m.completed then Run(m.entries, m.log, post, next + |pre|, act) else m
    decreases |pre|
  {
    if |pre| == 0 {
      assert pre + post == post;
    } else {
      var all := pre + post;
      assert all[0] == pre[0] && all[1..] == pre[1..] + post;
      match act(next, es, log, pre[0].0, pre[0].1)
      case None =>
        assert Run(es, log, all, next, act) == Outcome(es, log, false);
        assert Run(es, log, pre, next, act) == Outcome(es, log, false);
      case Some(r) =>
        var es1 := Put(es, pre[0].0, r.0);
        assert Run(es, log, all, next, act) == Run(es1, r.1, pre[1..] + post, next + 1, act);
        assert Run(es, log, pre, next, act) == Run(es1, r.1, pre[1..], next + 1, act);
        RunAppend(es1, r.1, pre[1..], post, next + 1, act);
    }
  }

  /** One more entry at the end: the step a loop takes. */
  lemma RunSnoc<V, C, L>(es: Entries<V>, log: seq<L>, items: seq<(string, C)>, i: nat, next: nat,
                         act: Action<V, C, L>)
    requires i < |items|
    ensures var m := Run(es, log, items[..i], next, act);
      Run(es, log, items[..i + 1], next, act)
        == if !m.completed then m
           else match act(next + i, m.entries, m.log, items[i].0, items[i].1)
                case None => Outcome(m.entries, m.log, false)
                case Some(r) => Outcome(Put(m.entries, items[i].0, r.0), r.1, true)
  {
    var m := Run(es, log, items[..i], next, act);
    var one := [items[i]];
    assert items[..i + 1] == items[..i] + one;
    RunAppend(es, log, items[..i], one, next, act);
    if m.completed {
      assert one[0] == items[i] && one[1..] == [];
      match act(next + i, m.entries, m.log, items[i].0, items[i].1)
      case None =>
        assert Run(m.entries, m.log, one, next + i, act) == Outcome(m.entries, m.log, false);
      case Some(r) =>
        assert Run(m.entries, m.log, one, next + i, act)
            == Run(Put(m.entries, items[i].0, r.0), r.1, [], next + i + 1, act);
    }
  }

  /** The registry keeps its keys, gains only the uids handled, and gains all of them on completion. */
  lemma {:induction false} RunKeys<V, C, L>(es: Entries<V>, log: seq<L>, items: seq<(string, C)>, next: nat,
                                           act: Action<V, C, L>)
    ensures var r := Run(es, log, items, next, act);
      && (DistinctKeys(es) ==> DistinctKeys(r.entries))
      && (forall u :: u in Keys(es) ==> u in Keys(r.entries))
      && (forall u :: u in Keys(r.entries) ==> u in Keys(es) || u in Keys(items))
      && (r.completed ==> forall j :: 0 <= j < |items| ==> items[j].0 in Keys(r.entries))
    decreases |items|
  {
    if |items| > 0 {
      match act(next, es, log, items[0].0, items[0].1)
      case None =>
      case Some(x) =>
        var es1 := Put(es, items[0].0, x.0);
        PutKeys(es, items[0].0, x.0);
        if DistinctKeys(es) {
          PutDistinct(es, items[0].0, x.0);
        }
        RunKeys(es1, x.1, items[1..], next + 1, act);
        assert Keys(items) == [items[0].0] + Keys(items[1..]);
        forall j | 0 < j < |items| ensures items[j].0 == items[1..][j - 1].0 { }
    }
  }

  /** The registry stays a dictionary. */
  lemma {:induction false} RunDistinct<V, C, L>(es: Entries<V>, log: seq<L>, items: seq<(string, C)>, next: nat,
                                               act: Action<V, C, L>)
    requires DistinctKeys(es)
    ensures DistinctKeys(Run(es, log, items, next, act).entries)
    decreases |items|
  {
    if |items| > 0 {
      match act(next, es, log, items[0].0, items[0].1)
      case None =>
      case Some(x) =>
        PutDistinct(es, items[0].0, x.0);
        RunDistinct(Put(es, items[0].0, x.0), x.1, items[1..], next + 1, act);
    }
  }

  /** Entries under uids the stage does not name are left alone. */
  lemma {:induction false} RunOthers<V, C, L>(es: Entries<V>, log: seq<L>, items: seq<(string, C)>, next: nat,
                                             act: Action<V, C, L>, u: string)
    requires DistinctKeys(es)
    requires u !in Keys(items)
    ensures Lookup(Run(es, log, items, next, act).entries, u) == Lookup(es, u)
    decreases |items|
  {
    if |items| > 0 {
      assert Keys(items) == [items[0].0] + Keys(items[1..]);
      match act(next, es, log, items[0].0, items[0].1)
      case None =>
      case Some(x) =>
        LookupPut(es, items[0].0, x.0, u);
        PutDistinct(es, items[0].0, x.0);
        RunOthers(Put(es, items[0].0, x.0), x.1, items[1..], next + 1, act, u);
    }
  }

  /** An entry whose action fails, after entries that all succeeded, ends the stage there. */
  lemma RunStops<V, C, L>(es: Entries<V>, log: seq<L>, items: seq<(string, C)>, i: nat, next: nat,
                          act: Action<V, C, L>)
    requires i < |items|
    requires Run(es, log, items[..i], next, act).completed
    requires var m := Run(es, log, items[..i], next, act);
      act(next + i, m.entries, m.log, items[i].0, items[i].1).None?
    ensures var m := Run(es, log, items[..i], next, act);
      Run(es, log, items, next, act) == Outcome(m.entries, m.log, false)
  {
    var m := Run(es, log, items[..i], next, act);
    var pre := items[..i + 1];
    RunSnoc(es, log, items, i, next, act);
    assert Run(es, log, pre, next, act) == Outcome(m.entries, m.log, false);
    assert items == pre + items[i + 1..];
    RunAppend(es, log, pre, items[i + 1..], next, act);
  }

  /** A completed stage completed every prefix, and goes on from there. */
  lemma {:induction false} RunSplit<V, C, L>(es: Entries<V>, log: seq<L>, items: seq<(string, C)>, next: nat,
                                            act: Action<V, C, L>, j: nat)
    requires Run(es, log, items, next, act).completed
    requires j <= |items|
    ensures var m := Run(es, log, items[..j], next, act);
      && m.completed
      && Run(es, log, items, next, act) == Run(m.entries, m.log, items[j..], next + j, act)
    decreases j
  {
    if j == 0 {
      assert items[..0] == [] && items[0..] == items;
    } else {
      var r := act(next, es, log, items[0].0, items[0].1).value;
      var es1 := Put(es, items[0].0, r.0);
      assert Run(es, log, items, next, act) == Run(es1, r.1, items[1..], next + 1, act);
      RunSplit(es1, r.1, items[1..], next + 1, act, j - 1);
      var pre := items[..j];
      assert pre[0] == items[0] && pre[1..] == items[1..][..j - 1];
      assert items[1..][j - 1..] == items[j..];
      var m := Run(es1, r.1, items[1..][..j - 1], next + 1, act);
      assert Run(es, log, pre, next, act) == m;
      assert Run(es1, r.1, items[1..], next + 1, act) == Run(m.entries, m.log, items[j..], next + j, act);
    }
  }

  /** After a completed stage, the first uid holds what its action produced, unless reused later. */
  lemma RunHead<V, C, L>(es: Entries<V>, log: seq<L>, items: seq<(string, C)>, next: nat,
                         act: Action<V, C, L>)
    requires DistinctKeys(es)
    requires Run(es, log, items, next, act).completed
    requires |items| > 0 && items[0].0 !in Keys(items[1..])
    ensures act(next, es, log, items[0].0, items[0].1).Some?
    ensures Lookup(Run(es, log, items, next, act).entries, items[0].0)
         == Some(act(next, es, log, items[0].0, items[0].1).value.0)
  {
    var x := act(next, es, log, items[0].0, items[0].1).value;
    var es1 := Put(es, items[0].0, x.0);
    LookupPut(es, items[0].0, x.0, items[0].0);
    PutDistinct(es, items[0].0, x.0);
    RunOthers(es1, x.1, items[1..], next + 1, act, items[0].0);
  }

  /**
   * After a completed stage, the j-th entry's uid holds what its action produced (run as
   * entry number next + j, after the entries before it), unless a later entry reuses the uid.
   */
  lemma RunEntry<V, C, L>(es: Entries<V>, log: seq<L>, items: seq<(string, C)>, next: nat,
                          act: Action<V, C, L>, j: nat)
    requires DistinctKeys(es)
    requires Run(es, log, items, next, act).completed
    requires j < |items|
    requires items[j].0 !in Keys(items[j + 1..])
    ensures var m := Run(es, log, items[..j], next, act);
      && m.completed
      && act(next + j, m.entries, m.log, items[j].0, items[j].1).Some?
      && Lookup(Run(es, log, items, next, act).entries, items[j].0)
           == Some(act(next + j, m.entries, m.log, items[j].0, items[j].1).value.0)
  {
    var m := Run(es, log, items[..j], next, act);
    RunSplit(es, log, items, next, act, j);
    RunDistinct(es, log, items[..j], next, act);
    var rest := items[j..];
    assert rest[0] == items[j] && rest[1..] == items[j + 1..];
    assert Run(m.entries, m.log, rest, next + j, act) == Run(es, log, items, next, act);
    RunHead(m.entries, m.log, rest, next + j, act);
  }

  /** A stage whose action never fails completes. */
  lemma {:induction false} RunTotal<V, C, L>(es: Entries<V>, log: seq<L>, items: seq<(string, C)>, next: nat,
                                            act: Action<V, C, L>)
    requires forall n, e, l, u, c :: act(n, e, l, u, c).Some?
    ensures Run(es, log, items, next, act).completed
    decreases |items|
  {
    if |items| > 0 {
      var x := act(next, es, log, items[0].0, items[0].1).value;
      RunTotal(Put(es, items[0].0, x.0), x.1, items[1..], next + 1, act);
    }
  }
}
