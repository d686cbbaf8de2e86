/**
 * How `encrypt_partitions` in new_main.py sorts the encrypted devices: the one device to be
 * unlocked in early userspace and, in configuration order, the devices unlocked late. Stated
 * over registries of any value type, so that it speaks of the device objects themselves.
 */
module Crypts {
  import opened Wrappers
  import opened Registry
  import opened Commands
  import opened Devices
  import opened Pipeline
  import Stages

  /** The objects registered under `uids`, in order. */
  function Objects<V>(devices: Entries<V>, uids: seq<string>): (r: seq<V>)
    requires forall u :: u in uids ==> u in Keys(devices)
    ensures |r| == |uids| && forall t :: 0 <= t < |uids| ==> Lookup(devices, uids[t]) == Some(r[t])
  {
    seq(|uids|, t requires 0 <= t < |uids| => Lookup(devices, uids[t]).value)
  }

  lemma ObjectsSnoc<V>(devices: Entries<V>, uids: seq<string>, uid: string)
    requires forall u :: u in uids ==> u in Keys(devices)
    requires uid in Keys(devices)
    ensures Objects(devices, uids + [uid]) == Objects(devices, uids) + [Lookup(devices, uid).value]
  {
    var lhs, rhs := Objects(devices, uids + [uid]), Objects(devices, uids) + [Lookup(devices, uid).value];
    forall t | 0 <= t < |lhs| ensures lhs[t] == rhs[t] {
      assert (uids + [uid])[t] == if t < |uids| then uids[t] else uid;
    }
  }

  /**
   * The classification `encrypt_partitions` has made after the entries `crypts`, over device
   * objects of type V: every uid seen is registered, the early device is the first early
   * entry's object (or the one chosen before), and the late list has grown by the late
   * entries' objects in order.
   */
  ghost predicate Classified<V>(devices: Entries<V>, crypts: seq<(string, CryptConfig)>,
                                early0: Option<V>, late0: seq<V>,
                                early: Option<V>, late: seq<V>)
  {
    && (forall u :: u in Keys(crypts) ==> u in Keys(devices))
    && early.Some? == (early0.Some? || |EarlyUids(crypts)| > 0)
    && late == late0 + Objects(devices, LateUids(crypts))
    && early == if |EarlyUids(crypts)| > 0 then Some(Lookup(devices, EarlyUids(crypts)[0]).value) else early0
  }

  /** Classifying the next entry, an early one found registered as `d`, when no early device is chosen yet. */
  lemma ClassifiedEarly<V>(devices: Entries<V>, crypts: seq<(string, CryptConfig)>, i: nat,
                           early0: Option<V>, late0: seq<V>, late: seq<V>, d: V)
    requires i < |crypts| && crypts[i].1.loadEarly && Lookup(devices, crypts[i].0) == Some(d)
    requires Classified(devices, crypts[..i], early0, late0, None, late)
    requires SecondEarly(crypts[..i], early0.Some?) == None
    ensures SecondEarly(crypts[..i + 1], early0.Some?) == None
    ensures Classified(devices, crypts[..i + 1], early0, late0, Some(d), late)
  {
    var pre, post, uid := crypts[..i], crypts[..i + 1], crypts[i].0;
    CryptContinue(crypts, early0.Some?, i);
    KeysPrefix(crypts, i);
    assert uid in Keys(devices);
    assert forall u :: u in Keys(post) ==> u in Keys(devices);
    assert EarlyUids(post) == [uid] && LateUids(post) == LateUids(pre);
  }

  /** Classifying the next entry, a late one found registered as `d`. */
  lemma ClassifiedLate<V>(devices: Entries<V>, crypts: seq<(string, CryptConfig)>, i: nat,
                          early0: Option<V>, late0: seq<V>,
                          early: Option<V>, late: seq<V>, d: V)
    requires i < |crypts| && !crypts[i].1.loadEarly && Lookup(devices, crypts[i].0) == Some(d)
    requires Classified(devices, crypts[..i], early0, late0, early, late)
    requires SecondEarly(crypts[..i], early0.Some?) == None
    ensures SecondEarly(crypts[..i + 1], early0.Some?) == None
    ensures Classified(devices, crypts[..i + 1], early0, late0, early, late + [d])
  {
    var pre, post, uid := crypts[..i], crypts[..i + 1], crypts[i].0;
    CryptContinue(crypts, early0.Some?, i);
    KeysPrefix(crypts, i);
    assert uid in Keys(devices);
    assert forall u :: u in Keys(post) ==> u in Keys(devices);
    var lateUids := LateUids(pre);
    assert forall u :: u in lateUids ==> u in Keys(devices);
    ObjectsSnoc(devices, lateUids, uid);
    assert LateUids(post) == lateUids + [uid] && EarlyUids(post) == EarlyUids(pre);
    var objects := Objects(devices, lateUids);
    assert Lookup(devices, uid).value == d;
    assert late0 + (objects + [d]) == late0 + objects + [d];
  }

  /**
   * Where `encrypt_partitions` stands after its first i entries, all handled without stopping:
   * the walk over them ended in states `v` and log `l`, no second early device was met, and the
   * objects were classified.
   */
  ghost predicate Progress<V>(view0: View, log0: seq<Command>, probe: Probe, crypts: seq<(string, CryptConfig)>,
                              i: nat, v: View, l: seq<Command>, devices: Entries<V>,
                              early0: Option<V>, late0: seq<V>, early: Option<V>, late: seq<V>)
  {
    && i <= |crypts|
    && Stages.Run(view0, log0, crypts[..i], 0, EncryptAction(probe)) == Stages.Outcome(v, l, true)
    && SecondEarly(crypts[..i], early0.Some?) == None
    && Classified(devices, crypts[..i], early0, late0, early, late)
  }

  /** Before the first entry nothing is done and nothing is classified. */
  lemma ProgressStart<V>(view0: View, log0: seq<Command>, probe: Probe, crypts: seq<(string, CryptConfig)>,
                         devices: Entries<V>, early0: Option<V>, late0: seq<V>)
    ensures Progress(view0, log0, probe, crypts, 0, view0, log0, devices, early0, late0, early0, late0)
  {
    assert crypts[..0] == [];
    assert Objects(devices, []) == [];
    assert late0 + [] == late0;
  }

  /** After the last entry the stage completes with the walk's states and log. */
  lemma ProgressDone<V>(view0: View, log0: seq<Command>, probe: Probe, crypts: seq<(string, CryptConfig)>,
                        v: View, l: seq<Command>, devices: Entries<V>,
                        early0: Option<V>, late0: seq<V>, early: Option<V>, late: seq<V>)
    requires Progress(view0, log0, probe, crypts, |crypts|, v, l, devices, early0, late0, early, late)
    ensures var c := CryptSpec(view0, log0, early0.Some?, crypts, probe); c.view == v && c.log == l && c.ok
    ensures Classified(devices, crypts, early0, late0, early, late)
  {
    assert crypts[..|crypts|] == crypts;
    assert Handled(crypts, early0.Some?) == crypts;
  }
}
