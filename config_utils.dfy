/**
 * Configuration defaulting and validation of scripts/config_utils.py. The YAML configuration is
 * a tree of Python values; each section is checked against a table of default options, where an
 * option is a plain default, `Required()` (must be given), or a `Choice` of allowed values.
 * `fill_defaults` inserts the defaults of missing options into the configuration dictionary in
 * place, and appends the key path of every missing required or invalid option to the
 * `missing_required` list of the `Config` object.
 */
module ConfigUtils {
  import opened Wrappers
  import opened Registry

  /** A value `yaml.safe_load` produces: a mapping becomes an insertion-ordered dictionary. */
  datatype Value =
    | Null
    | Bool(b: bool)
    | Int(i: int)
    | Str(s: string)
    | List(items: seq<Value>)
    | Dict(entries: seq<(string, Value)>)

  /** The default of an option: the `Required()` placeholder, or a value to insert. */
  datatype Fallback = Required | Given(v: Value)

  /** An entry of a defaults table: a plain default, or `Choice(default, *choices)`. */
  datatype Default = Plain(fallback: Fallback) | Choice(default: Fallback, choices: seq<Value>)

  /** Python's `bool` is a subtype of `int`: `True == 1` and `False == 0`. */
  function Numeric(v: Value): Option<int>
  {
    match v
    case Bool(b) => Some(if b then 1 else 0)
    case Int(i) => Some(i)
    case _ => None
  }

  /**
   * Python's `==` between a configured value and an allowed value; the allowed values in the
   * tables are scalars, so containers compare structurally.
   */
  predicate PyEq(v: Value, w: Value)
  {
    if Numeric(v).Some? || Numeric(w).Some? then Numeric(v) == Numeric(w) else v == w
  }

  /** The default of either kind of option. */
  function FallbackOf(d: Default): Fallback
  {
    match d
    case Plain(f) => f
    case Choice(f, _) => f
  }

  /**
   * `v in choice`: Python's `in` on an object without `__contains__` walks `__iter__` and
   * compares with `==`; the `Required()` placeholder equals no configured value.
   */
  predicate In(v: Value, d: Default)
    requires d.Choice?
  {
    (d.default.Given? && PyEq(v, d.default.v)) || exists k :: 0 <= k < |d.choices| && PyEq(v, d.choices[k])
  }

  /**
   * `Choice.__iter__`: the default first, then the choices in order. A configured value is `in`
   * the choice exactly when it equals a non-placeholder value this yields.
   */
  method Iterate(d: Default) returns (it: seq<Fallback>)
    requires d.Choice?
    ensures |it| == |d.choices| + 1 && it[0] == d.default
    ensures forall k :: 0 <= k < |d.choices| ==> it[k + 1] == Given(d.choices[k])
    ensures forall v :: In(v, d) <==> exists j :: 0 <= j < |it| && it[j].Given? && PyEq(v, it[j].v)
  {
    it := [d.default];
    for k := 0 to |d.choices|
      invariant |it| == k + 1 && it[0] == d.default
      invariant forall t :: 0 <= t < k ==> it[t + 1] == Given(d.choices[t])
    {
      it := it + [Given(d.choices[k])];
    }
    forall v | exists j :: 0 <= j < |it| && it[j].Given? && PyEq(v, it[j].v)
      ensures In(v, d)
    {
      var j :| 0 <= j < |it| && it[j].Given? && PyEq(v, it[j].v);
      if j > 0 {
        assert PyEq(v, d.choices[j - 1]);
      }
    }
    forall v | In(v, d)
      ensures exists j :: 0 <= j < |it| && it[j].Given? && PyEq(v, it[j].v)
    {
      if !(d.default.Given? && PyEq(v, d.default.v)) {
        var k :| 0 <= k < |d.choices| && PyEq(v, d.choices[k]);
        assert it[k + 1].Given? && PyEq(v, it[k + 1].v);
      }
    }
  }

  /** The default of a `Choice` is always a valid value of it, unless it is the placeholder. */
  lemma DefaultIsValid(d: Default, v: Value)
    requires d.Choice? && d.default == Given(v)
    ensures In(v, d)
  {
    match v
    case Bool(b) =>
    case Int(i) =>
    case _ =>
  }

  /** What `fill_defaults` does with one default option. */
  datatype Step = Record | Insert(v: Value) | Leave

  /** The branch `fill_defaults` takes for option `option` with default `d`, on `config` as it stands. */
  function Decide(config: Entries<Value>, option: string, d: Default): Step
  {
    match d
    case Choice(def, _) =>
      if def.Required? && option !in Keys(config) then Record
      else if option in Keys(config) && !In(Lookup(config, option).value, d) then Record
      else if option !in Keys(config) then Insert(def.v)
      else Leave
    case Plain(def) =>
      if option in Keys(config) then Leave
      else if def.Required? then Record
      else Insert(def.v)
  }

  /** The dictionary and the recorded key paths after the first n default options. */
  function FillN(config: Entries<Value>, defaults: Entries<Default>, keyPath: seq<string>, n: nat)
    : (Entries<Value>, seq<seq<string>>)
    requires n <= |defaults|
  {
    if n == 0 then (config, [])
    else
      var (c, errs) := FillN(config, defaults, keyPath, n - 1);
      var (option, d) := defaults[n - 1];
      match Decide(c, option, d)
      case Record => (c, errs + [keyPath + [option]])
      case Insert(v) => (Put(c, option, v), errs)
      case Leave => (c, errs)
  }

  /** The options among the first n whose default is inserted, judged on the original dictionary. */
  function Inserted(config: Entries<Value>, defaults: Entries<Default>, n: nat): Entries<Value>
    requires n <= |defaults|
  {
    if n == 0 then []
    else
      match Decide(config, defaults[n - 1].0, defaults[n - 1].1)
      case Insert(v) => Inserted(config, defaults, n - 1) + [(defaults[n - 1].0, v)]
      case _ => Inserted(config, defaults, n - 1)
  }

  /** The key paths of the options among the first n that are missing or invalid, in table order. */
  function Recorded(config: Entries<Value>, defaults: Entries<Default>, keyPath: seq<string>, n: nat)
    : seq<seq<string>>
    requires n <= |defaults|
  {
    if n == 0 then []
    else
      Recorded(config, defaults, keyPath, n - 1)
        + if Decide(config, defaults[n - 1].0, defaults[n - 1].1) == Record then [keyPath + [defaults[n - 1].0]] else []
  }

  /** The branch taken for an option depends only on that option's own entry. */
  lemma DecideOwnEntry(config: Entries<Value>, extra: Entries<Value>, option: string, d: Default)
    requires option !in Keys(extra)
    ensures Decide(config + extra, option, d) == Decide(config, option, d)
  {
    KeysAppend(config, extra);
    LookupAppend(config, extra, option);
  }

  /** The keys inserted among the first n options are table keys absent from the dictionary. */
  lemma {:induction false} InsertedKeys(config: Entries<Value>, defaults: Entries<Default>, n: nat)
    requires n <= |defaults|
    ensures forall k :: k in Keys(Inserted(config, defaults, n)) ==> k in Keys(defaults[..n]) && k !in Keys(config)
  {
    if n > 0 {
      InsertedKeys(config, defaults, n - 1);
      KeysPrefix(defaults, n - 1);
      var prev := Inserted(config, defaults, n - 1);
      match Decide(config, defaults[n - 1].0, defaults[n - 1].1)
      case Insert(v) =>
        KeysAppend(prev, [(defaults[n - 1].0, v)]);
      case _ =>
    }
  }

  /**
   * With a defaults table whose options are distinct (it is a dictionary), filling leaves the
   * original dictionary as a prefix followed by the inserted defaults in table order, and the
   * recorded key paths are those of the options missing or invalid in the ORIGINAL dictionary,
   * in table order.
   */
  lemma {:induction false} FillShape(config: Entries<Value>, defaults: Entries<Default>, keyPath: seq<string>, n: nat)
    requires DistinctKeys(defaults) && n <= |defaults|
    ensures FillN(config, defaults, keyPath, n)
         == (config + Inserted(config, defaults, n), Recorded(config, defaults, keyPath, n))
  {
    FillShapeFrom(config, defaults, keyPath, n);
  }

  /** FillShape by induction on n, from each option's absence among the options before it. */
  lemma {:induction false} FillShapeFrom(config: Entries<Value>, defaults: Entries<Default>, keyPath: seq<string>, n: nat)
    requires n <= |defaults|
    requires forall i :: 0 <= i < n ==> defaults[i].0 !in Keys(defaults[..i])
    ensures FillN(config, defaults, keyPath, n)
         == (config + Inserted(config, defaults, n), Recorded(config, defaults, keyPath, n))
  {
    if n > 0 {
      FillShapeFrom(config, defaults, keyPath, n - 1);
      InsertedKeys(config, defaults, n - 1);
      FillShapeStep(config, defaults, keyPath, n);
    } else {
      assert config + [] == config;
    }
  }

  /** One more option of the table, judged on the original dictionary. */
  lemma FillShapeStep(config: Entries<Value>, defaults: Entries<Default>, keyPath: seq<string>, n: nat)
    requires 0 < n <= |defaults|
    requires FillN(config, defaults, keyPath, n - 1)
          == (config + Inserted(config, defaults, n - 1), Recorded(config, defaults, keyPath, n - 1))
    requires defaults[n - 1].0 !in Keys(Inserted(config, defaults, n - 1))
    ensures FillN(config, defaults, keyPath, n)
         == (config + Inserted(config, defaults, n), Recorded(config, defaults, keyPath, n))
  {
    var ins := Inserted(config, defaults, n - 1);
    var (option, d) := defaults[n - 1];
    DecideOwnEntry(config, ins, option, d);
    match Decide(config, option, d)
    case Insert(v) =>
      assert option !in Keys(config);
      InsertAppends(config, ins, option, v);
      assert Inserted(config, defaults, n) == ins + [(option, v)];
      assert Decide(config + ins, option, d) == Insert(v);
      assert FillN(config, defaults, keyPath, n).0 == Put(config + ins, option, v);
      assert FillN(config, defaults, keyPath, n).0 == config + Inserted(config, defaults, n);
      assert Recorded(config, defaults, keyPath, n) == Recorded(config, defaults, keyPath, n - 1) + [];
      assert FillN(config, defaults, keyPath, n).1 == Recorded(config, defaults, keyPath, n);
    case Record =>
    case Leave =>
      assert Inserted(config, defaults, n) == ins;
      assert Decide(config + ins, option, d) == Leave;
      assert FillN(config, defaults, keyPath, n).0 == config + Inserted(config, defaults, n);
      assert Recorded(config, defaults, keyPath, n) == Recorded(config, defaults, keyPath, n - 1) + [];
      assert FillN(config, defaults, keyPath, n).1 == Recorded(config, defaults, keyPath, n);
  }

  /** Inserting an option absent from both parts appends it after them. */
  lemma InsertAppends(config: Entries<Value>, ins: Entries<Value>, option: string, v: Value)
    requires option !in Keys(config) && option !in Keys(ins)
    ensures Put(config + ins, option, v) == config + (ins + [(option, v)])
  {
    KeysAppend(config, ins);
    PutNew(config + ins, option, v);
  }

  /** The recorded paths are the key path extended by an option whose branch records it. */
  lemma {:induction false} RecordedHas(config: Entries<Value>, defaults: Entries<Default>, keyPath: seq<string>,
                                       n: nat, p: seq<string>)
    requires n <= |defaults|
    ensures p in Recorded(config, defaults, keyPath, n)
        <==> exists i :: 0 <= i < n && Decide(config, defaults[i].0, defaults[i].1) == Record
                         && p == keyPath + [defaults[i].0]
  {
    if n > 0 {
      RecordedHas(config, defaults, keyPath, n - 1, p);
    }
  }

  /** The value option `option` gets inserted with, if its branch inserts. */
  function InsertedValue(config: Entries<Value>, option: string, d: Default): Option<Value>
  {
    match Decide(config, option, d)
    case Insert(v) => Some(v)
    case _ => None
  }

  /** An option appears among the inserted entries exactly when its branch inserts, with that value. */
  lemma InsertedHas(config: Entries<Value>, defaults: Entries<Default>, n: nat, j: nat)
    requires DistinctKeys(defaults) && j < n <= |defaults|
    ensures Lookup(Inserted(config, defaults, n), defaults[j].0)
         == InsertedValue(config, defaults[j].0, defaults[j].1)
  {
    InsertedKeys(config, defaults, j);
    InsertedHasFrom(config, defaults, n, j);
  }

  /** InsertedHas by induction on n, from the facts about option j that it needs. */
  lemma {:induction false} InsertedHasFrom(config: Entries<Value>, defaults: Entries<Default>, n: nat, j: nat)
    requires j < n <= |defaults|
    requires defaults[j].0 !in Keys(Inserted(config, defaults, j))
    requires forall i :: j < i < n ==> defaults[i].0 != defaults[j].0
    ensures Lookup(Inserted(config, defaults, n), defaults[j].0)
         == InsertedValue(config, defaults[j].0, defaults[j].1)
  {
    if j < n - 1 {
      InsertedHasFrom(config, defaults, n - 1, j);
      InsertedLaterOption(config, defaults, n, j);
    } else {
      InsertedLastOption(config, defaults, n);
    }
  }

  /** A later option of the table does not change what an earlier option finds. */
  lemma InsertedLaterOption(config: Entries<Value>, defaults: Entries<Default>, n: nat, j: nat)
    requires j < n - 1 && n <= |defaults| && defaults[n - 1].0 != defaults[j].0
    requires Lookup(Inserted(config, defaults, n - 1), defaults[j].0) == InsertedValue(config, defaults[j].0, defaults[j].1)
    ensures Lookup(Inserted(config, defaults, n), defaults[j].0) == InsertedValue(config, defaults[j].0, defaults[j].1)
  {
    var prev := Inserted(config, defaults, n - 1);
    var o := defaults[j].0;
    match Decide(config, defaults[n - 1].0, defaults[n - 1].1)
    case Insert(v) =>
      LookupAppend(prev, [(defaults[n - 1].0, v)], o);
      assert Lookup([(defaults[n - 1].0, v)], o) == None;
    case _ =>
  }

  /** The n-th option finds its own inserted entry, when its branch inserts one. */
  lemma InsertedLastOption(config: Entries<Value>, defaults: Entries<Default>, n: nat)
    requires 0 < n <= |defaults| && defaults[n - 1].0 !in Keys(Inserted(config, defaults, n - 1))
    ensures Lookup(Inserted(config, defaults, n), defaults[n - 1].0)
         == InsertedValue(config, defaults[n - 1].0, defaults[n - 1].1)
  {
    var prev := Inserted(config, defaults, n - 1);
    var o := defaults[n - 1].0;
    match Decide(config, o, defaults[n - 1].1)
    case Insert(v) =>
      LookupAppend(prev, [(o, v)], o);
    case _ =>
  }

  /**
   * What filling does to each option of the table:
   * a missing option whose default is `Required()` is recorded and stays missing;
   * a missing option with a real default gets that default and is not recorded;
   * a present option keeps its value, and is recorded exactly when it is a `Choice` option
   * whose value is not among the default and the choices.
   */
  lemma FillOption(config: Entries<Value>, defaults: Entries<Default>, keyPath: seq<string>, j: nat)
    requires DistinctKeys(defaults) && j < |defaults|
    ensures var (filled, errs) := FillN(config, defaults, keyPath, |defaults|);
      var (o, d) := defaults[j];
      && (o !in Keys(config) && FallbackOf(d).Required? ==> keyPath + [o] in errs && o !in Keys(filled))
      && (o !in Keys(config) && FallbackOf(d).Given? ==>
            Lookup(filled, o) == Some(FallbackOf(d).v) && keyPath + [o] !in errs)
      && (o in Keys(config) ==>
            Lookup(filled, o) == Lookup(config, o)
            && (keyPath + [o] in errs <==> d.Choice? && !In(Lookup(config, o).value, d)))
  {
    var n := |defaults|;
    var (o, d) := defaults[j];
    var ins := Inserted(config, defaults, n);
    FillShape(config, defaults, keyPath, n);
    InsertedHas(config, defaults, n, j);
    LookupAppend(config, ins, o);
    KeysAppend(config, ins);
    RecordedHas(config, defaults, keyPath, n, keyPath + [o]);
    forall i | 0 <= i < n && keyPath + [o] == keyPath + [defaults[i].0]
      ensures i == j
    {
      assert (keyPath + [o])[|keyPath|] == o;
      assert (keyPath + [defaults[i].0])[|keyPath|] == defaults[i].0;
    }
    assert Decide(config, o, d) == Record ==> keyPath + [o] in Recorded(config, defaults, keyPath, n);
  }

  /**
   * Filling never removes or changes what was there: the original dictionary, including keys
   * the table does not name, is a prefix of the result, and every present key keeps its value.
   */
  lemma FillKeepsPresent(config: Entries<Value>, defaults: Entries<Default>, keyPath: seq<string>)
    requires DistinctKeys(defaults)
    ensures var filled := FillN(config, defaults, keyPath, |defaults|).0;
      && |config| <= |filled| && filled[..|config|] == config
      && forall k :: k in Keys(config) ==> Lookup(filled, k) == Lookup(config, k)
  {
    var ins := Inserted(config, defaults, |defaults|);
    FillShape(config, defaults, keyPath, |defaults|);
    assert (config + ins)[..|config|] == config;
    forall k | k in Keys(config) ensures Lookup(config + ins, k) == Lookup(config, k) {
      LookupAppend(config, ins, k);
    }
  }

  /** Every recorded error is the key path extended by one option of the table, in table order. */
  lemma FillErrorsInOrder(config: Entries<Value>, defaults: Entries<Default>, keyPath: seq<string>)
    requires DistinctKeys(defaults)
    ensures var errs := FillN(config, defaults, keyPath, |defaults|).1;
      && errs == Recorded(config, defaults, keyPath, |defaults|)
      && forall e :: e in errs ==> |e| == |keyPath| + 1 && e[..|keyPath|] == keyPath && e[|keyPath|] in Keys(defaults)
  {
    var n := |defaults|;
    FillShape(config, defaults, keyPath, n);
    forall e | e in Recorded(config, defaults, keyPath, n)
      ensures |e| == |keyPath| + 1 && e[..|keyPath|] == keyPath && e[|keyPath|] in Keys(defaults)
    {
      RecordedHas(config, defaults, keyPath, n, e);
      var i :| 0 <= i < n && Decide(config, defaults[i].0, defaults[i].1) == Record && e == keyPath + [defaults[i].0];
      assert e[|keyPath|] == Keys(defaults)[i];
    }
  }

  /** The raw devices (or users) of a section whose configuration sets `password`, in order. */
  function PasswordHolders(section: Entries<Entries<Value>>): seq<string>
  {
    if |section| == 0 then []
    else
      PasswordHolders(section[..|section| - 1])
        + if "password" in Keys(section[|section| - 1].1) then [section[|section| - 1].0] else []
  }

  /** A device (or user) is warned about exactly when its raw configuration had `password`. */
  lemma {:induction false} PasswordHoldersIff(section: Entries<Entries<Value>>, u: string)
    ensures u in PasswordHolders(section)
        <==> exists j :: 0 <= j < |section| && section[j].0 == u && "password" in Keys(section[j].1)
  {
    if |section| > 0 {
      var pre := section[..|section| - 1];
      PasswordHoldersIff(pre, u);
      assert forall j :: 0 <= j < |pre| ==> pre[j] == section[j];
    }
  }

  /** The filled section, its password warnings and its recorded errors after its first n entries. */
  function SectionN(name: string, section: Entries<Entries<Value>>, defaults: Entries<Default>, n: nat)
    : (Entries<Entries<Value>>, seq<string>, seq<seq<string>>)
    requires n <= |section|
  {
    if n == 0 then ([], [], [])
    else
      var (filled, warned, errs) := SectionN(name, section, defaults, n - 1);
      var (u, raw) := section[n - 1];
      var f := FillN(raw, defaults, [name, u], |defaults|);
      (Put(filled, u, f.0), warned + if "password" in Keys(raw) then [u] else [], errs + f.1)
  }

  /** The password warnings of a section are collected from the raw configurations. */
  lemma {:induction false} SectionWarnings(name: string, section: Entries<Entries<Value>>, defaults: Entries<Default>, n: nat)
    requires n <= |section|
    ensures SectionN(name, section, defaults, n).1 == PasswordHolders(section[..n])
  {
    if n > 0 {
      SectionWarnings(name, section, defaults, n - 1);
      assert section[..n][..n - 1] == section[..n - 1];
    }
  }

  /** The keys of the filled section are those of the raw section. */
  lemma {:induction false} SectionKeys(name: string, section: Entries<Entries<Value>>, defaults: Entries<Default>, n: nat)
    requires n <= |section|
    ensures forall u :: u in Keys(SectionN(name, section, defaults, n).0) <==> u in Keys(section[..n])
  {
    if n > 0 {
      SectionKeys(name, section, defaults, n - 1);
      var s := SectionN(name, section, defaults, n - 1);
      var (u, raw) := section[n - 1];
      var f := FillN(raw, defaults, [name, u], |defaults|).0;
      assert SectionN(name, section, defaults, n).0 == Put(s.0, u, f);
      PutKeys(s.0, u, f);
      KeysPrefix(section, n - 1);
    }
  }

  /**
   * When the table gives `password` a real default (as the crypt and user tables do), every
   * filled entry has a `password` key: the warnings must be collected before filling, or every
   * entry would be reported.
   */
  lemma {:induction false} SectionAllHavePassword(name: string, section: Entries<Entries<Value>>,
                                                  defaults: Entries<Default>, n: nat, j: nat)
    requires DistinctKeys(defaults)
    requires j < |defaults| && defaults[j].0 == "password" && defaults[j].1.Plain? && defaults[j].1.fallback.Given?
    requires n <= |section|
    ensures forall t :: 0 <= t < |SectionN(name, section, defaults, n).0| ==>
              "password" in Keys(SectionN(name, section, defaults, n).0[t].1)
  {
    if n > 0 {
      SectionAllHavePassword(name, section, defaults, n - 1, j);
      var s := SectionN(name, section, defaults, n - 1).0;
      var (u, raw) := section[n - 1];
      var f := FillN(raw, defaults, [name, u], |defaults|).0;
      FilledHasOption(raw, defaults, [name, u], j);
      PutPreserves(s, u, f);
    }
  }

  /** An option with a real plain default is present after filling. */
  lemma FilledHasOption(config: Entries<Value>, defaults: Entries<Default>, keyPath: seq<string>, j: nat)
    requires DistinctKeys(defaults)
    requires j < |defaults| && defaults[j].1.Plain? && defaults[j].1.fallback.Given?
    ensures defaults[j].0 in Keys(FillN(config, defaults, keyPath, |defaults|).0)
  {
    FillOption(config, defaults, keyPath, j);
    FillKeepsPresent(config, defaults, keyPath);
  }

  /** Assigning a dictionary with a `password` key keeps every entry holding one. */
  lemma {:induction false} PutPreserves(s: Entries<Entries<Value>>, u: string, f: Entries<Value>)
    requires "password" in Keys(f)
    requires forall t :: 0 <= t < |s| ==> "password" in Keys(s[t].1)
    ensures forall t :: 0 <= t < |Put(s, u, f)| ==> "password" in Keys(Put(s, u, f)[t].1)
    decreases |s|
  {
    if |s| > 0 && s[0].0 != u {
      PutPreserves(s[1..], u, f);
      assert forall t :: 1 <= t < |Put(s, u, f)| ==> Put(s, u, f)[t] == Put(s[1..], u, f)[t - 1];
    }
  }

  /** The crypt table: `Defaults.CRYPT`. */
  const CryptDefaults: Entries<Default> := [
    ("crypt-label", Plain(Required)),
    ("load-early", Choice(Given(Bool(false)), [Bool(true)])),
    ("generate-keyfile", Choice(Given(Bool(false)), [Bool(true)])),
    ("password", Plain(Given(Str("password"))))
  ]

  /** The user table: `Defaults.USER`. */
  const UserDefaults: Entries<Default> := [
    ("shell", Plain(Given(Str("/bin/bash")))),
    ("home", Plain(Given(Str("")))),
    ("comment", Plain(Given(Str("")))),
    ("groups", Plain(Given(List([])))),
    ("password", Plain(Given(Str("password"))))
  ]

  /** The `Config` object: the list of missing or invalid options it accumulates. */
  class Config {
    var missingRequired: seq<seq<string>>

    constructor ()
      ensures missingRequired == []
    {
      missingRequired := [];
    }

    /**
     * `fill_defaults`: walk the table's options in order, insert the default of each missing
     * option, and record the key path of each missing required or invalid option. The result
     * and the recorded paths are those of `FillN`; FillShape, FillOption, FillKeepsPresent and
     * FillErrorsInOrder say what they are.
     */
    method FillDefaults(config: Entries<Value>, defaults: Entries<Default>, keyPath: seq<string>)
      returns (filled: Entries<Value>)
      modifies this`missingRequired
      ensures filled == FillN(config, defaults, keyPath, |defaults|).0
      ensures missingRequired == old(missingRequired) + FillN(config, defaults, keyPath, |defaults|).1
    {
      filled := config;
      ghost var errs: seq<seq<string>> := [];
      for i := 0 to |defaults|
        invariant FillN(config, defaults, keyPath, i) == (filled, errs)
        invariant missingRequired == old(missingRequired) + errs
      {
        var (option, d) := defaults[i];
        match d {
          case Choice(def, _) =>
            if def.Required? && option !in Keys(filled) {
              missingRequired := missingRequired + [keyPath + [option]];
              errs := errs + [keyPath + [option]];
            } else if option in Keys(filled) && !In(Lookup(filled, option).value, d) {
              missingRequired := missingRequired + [keyPath + [option]];
              errs := errs + [keyPath + [option]];
            } else if option !in Keys(filled) {
              filled := Put(filled, option, def.v);
            }
          case Plain(def) =>
            if option !in Keys(filled) {
              if def.Required? {
                missingRequired := missingRequired + [keyPath + [option]];
                errs := errs + [keyPath + [option]];
              } else {
                filled := Put(filled, option, def.v);
              }
            }
        }
      }
    }

    /**
     * The crypt-device loop (and the identical user loop) of `__init__`: for each entry, note
     * it in the password warnings when its raw configuration sets `password`, then store its
     * filled configuration under its name, with key path [section, name].
     */
    method FillSection(name: string, section: Entries<Entries<Value>>, defaults: Entries<Default>)
      returns (filled: Entries<Entries<Value>>, warned: seq<string>)
      modifies this`missingRequired
      ensures filled == SectionN(name, section, defaults, |section|).0
      ensures warned == SectionN(name, section, defaults, |section|).1
      ensures missingRequired == old(missingRequired) + SectionN(name, section, defaults, |section|).2
    {
      filled, warned := [], [];
      ghost var errs: seq<seq<string>> := [];
      for i := 0 to |section|
        invariant SectionN(name, section, defaults, i) == (filled, warned, errs)
        invariant missingRequired == old(missingRequired) + errs
      {
        var (u, raw) := section[i];
        ghost var prev := (filled, warned, errs);
        if "password" in Keys(raw) {
          warned := warned + [u];
        }
        ghost var before := missingRequired;
        var f := FillDefaults(raw, defaults, [name, u]);
        ghost var fill := FillN(raw, defaults, [name, u], |defaults|);
        assert missingRequired[|before|..] == fill.1;
        errs := errs + fill.1;
        filled := Put(filled, u, f);
        assert warned == prev.1 + if "password" in Keys(raw) then [u] else [];
      }
    }
  }

  /**
   * Both the crypt table and the user table give `password` a real default, so after filling
   * every crypt device and every user has one, whatever its raw configuration said.
   */
  lemma FilledTablesHavePassword(crypts: Entries<Entries<Value>>, users: Entries<Entries<Value>>)
    ensures var c := SectionN("crypt", crypts, CryptDefaults, |crypts|).0;
      forall t :: 0 <= t < |c| ==> "password" in Keys(c[t].1)
    ensures var u := SectionN("users", users, UserDefaults, |users|).0;
      forall t :: 0 <= t < |u| ==> "password" in Keys(u[t].1)
  {
    SectionAllHavePassword("crypt", crypts, CryptDefaults, |crypts|, 3);
    SectionAllHavePassword("users", users, UserDefaults, |users|, 4);
  }
}
