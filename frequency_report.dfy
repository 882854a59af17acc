/** The communication frequency report: how many logged communications fall under each
    communication-method name, and the CSV rows exported from that tally. */
module FrequencyReport {
  import opened Wrappers
  import opened Lists
  import opened Entities

  /** `communicationMethods.find(method => method.id === comm.communicationType)` */
  function MethodOf(methods: seq<CommunicationMethod>, comm: Communication): (r: Option<CommunicationMethod>)
    ensures r.None? <==> forall m :: m in methods ==> m.id != comm.communicationType
    ensures r.Some? ==> exists i :: 0 <= i < |methods| && methods[i] == r.value &&
                          r.value.id == comm.communicationType &&
                          forall j :: 0 <= j < i ==> methods[j].id != comm.communicationType
  {
    FindByKey(methods, MethodKey, comm.communicationType)
  }

  /** The communication is tallied under `name`: its type resolves to a method so named. */
  predicate CountsToward(methods: seq<CommunicationMethod>, comm: Communication, name: string) {
    var m := MethodOf(methods, comm);
    m.Some? && m.value.name == name
  }

  /** How many of `comms` are tallied under `name`. */
  function Frequency(methods: seq<CommunicationMethod>, comms: seq<Communication>, name: string): (n: nat)
    ensures n <= |comms|
  {
    if comms == [] then 0
    else
      Frequency(methods, comms[..|comms| - 1], name) +
      (if CountsToward(methods, comms[|comms| - 1], name) then 1 else 0)
  }

  /** Name `a` is carried by some method that comes before every method named `b`. */
  predicate FirstBefore(methods: seq<CommunicationMethod>, a: string, b: string) {
    exists m :: 0 <= m < |methods| && methods[m].name == a &&
      forall n :: 0 <= n <= m ==> methods[n].name != b
  }

  lemma FirstBeforeExtend(init: seq<CommunicationMethod>, last: CommunicationMethod, a: string, b: string)
    requires FirstBefore(init, a, b)
    ensures FirstBefore(init + [last], a, b)
  {
    var m :| 0 <= m < |init| && init[m].name == a && forall n :: 0 <= n <= m ==> init[n].name != b;
    assert (init + [last])[m] == init[m];
    forall n | 0 <= n <= m ensures (init + [last])[n].name != b {
      assert (init + [last])[n] == init[n];
    }
  }

  lemma FirstBeforeNewName(init: seq<CommunicationMethod>, last: CommunicationMethod, a: string)
    requires exists k :: k in init && k.name == a
    requires forall k :: k in init ==> k.name != last.name
    ensures FirstBefore(init + [last], a, last.name)
  {
    var k :| k in init && k.name == a;
    var m :| 0 <= m < |init| && init[m] == k;
    assert (init + [last])[m] == init[m];
    forall n | 0 <= n <= m ensures (init + [last])[n].name != last.name {
      assert (init + [last])[n] == init[n] && init[n] in init;
    }
  }

  /** The names of the methods, each once, in the order they first appear: the key order
      of the tally object. */
  function DistinctNames(methods: seq<CommunicationMethod>): (r: seq<string>)
    ensures forall n :: n in r <==> exists m :: m in methods && m.name == n
    ensures forall i, j :: 0 <= i < j < |r| ==> r[i] != r[j]
    ensures forall i, j :: 0 <= i < j < |r| ==> FirstBefore(methods, r[i], r[j])
  {
    if methods == [] then []
    else
      var init := methods[..|methods| - 1];
      var last := methods[|methods| - 1];
      assert methods == init + [last];
      var names := DistinctNames(init);
      if last.name in names then
        assert forall i, j :: 0 <= i < j < |names| ==> FirstBefore(methods, names[i], names[j]) by {
          forall i, j | 0 <= i < j < |names| ensures FirstBefore(methods, names[i], names[j]) {
            FirstBeforeExtend(init, last, names[i], names[j]);
          }
        }
        names
      else
        var r := names + [last.name];
        assert forall i, j :: 0 <= i < j < |r| ==> FirstBefore(methods, r[i], r[j]) by {
          forall i, j | 0 <= i < j < |r| ensures FirstBefore(methods, r[i], r[j]) {
            if j < |names| {
              FirstBeforeExtend(init, last, names[i], names[j]);
            } else {
              assert r[i] == names[i] && names[i] in names;
              FirstBeforeNewName(init, last, names[i]);
            }
          }
        }
        r
  }

  /** The set of method names: the tally's key set. */
  function NameSet(methods: seq<CommunicationMethod>): set<string> {
    set m | m in methods :: m.name
  }

  /** The `communicationCount` tally: a key per method name, set to 0, then one increment
      per communication under the name of the first method whose id is its type. `keys`
      is the object's key order. */
  method CommunicationCount(methods: seq<CommunicationMethod>, comms: seq<Communication>)
    returns (count: map<string, nat>, keys: seq<string>)
    ensures keys == DistinctNames(methods)
    ensures count.Keys == NameSet(methods)
    ensures forall name :: name in count ==> count[name] == Frequency(methods, comms, name)
  {
    count := map[];
    keys := [];
    for i := 0 to |methods|
      invariant keys == DistinctNames(methods[..i])
      invariant count.Keys == NameSet(methods[..i])
      invariant forall name :: name in count ==> count[name] == 0
    {
      var name := methods[i].name;
      KeyStep(methods, i, keys, count.Keys);
      if name !in count {
        keys := keys + [name];
      }
      count := count[name := 0];
    }
    assert methods[..|methods|] == methods;
    for i := 0 to |comms|
      invariant count.Keys == NameSet(methods)
      invariant forall name :: name in count ==> count[name] == Frequency(methods, comms[..i], name)
    {
      assert comms[..i + 1] == comms[..i] + [comms[i]];
      TallyStep(methods, comms[..i], comms[i], count);
      var found := MethodOf(methods, comms[i]);
      if found.Some? {
        count := count[found.value.name := count[found.value.name] + 1];
      }
    }
    assert comms[..|comms|] == comms;
  }

  /** Tallying one more communication adds one to the name of the first method whose id
      is its type, and nothing to any other name; an unknown type adds nothing anywhere. */
  lemma {:induction false} FrequencyStep(methods: seq<CommunicationMethod>, comms: seq<Communication>,
                                         comm: Communication, name: string)
    ensures MethodOf(methods, comm).None? ==>
              Frequency(methods, comms + [comm], name) == Frequency(methods, comms, name)
    ensures MethodOf(methods, comm).Some? ==>
              Frequency(methods, comms + [comm], name) ==
              Frequency(methods, comms, name) + (if MethodOf(methods, comm).value.name == name then 1 else 0)
  {
    assert (comms + [comm])[..|comms|] == comms;
  }

  /** One turn of the key loop: the next method's name is new exactly when it is not yet a
      key, and it joins both the key order and the key set. */
  lemma KeyStep(methods: seq<CommunicationMethod>, i: int, keys: seq<string>, names: set<string>)
    requires 0 <= i < |methods|
    requires keys == DistinctNames(methods[..i]) && names == NameSet(methods[..i])
    ensures DistinctNames(methods[..i + 1]) ==
            if methods[i].name in names then keys else keys + [methods[i].name]
    ensures NameSet(methods[..i + 1]) == names + {methods[i].name}
  {
    assert methods[..i + 1] == methods[..i] + [methods[i]];
    assert methods[..i + 1][..i] == methods[..i];
  }

  /** One turn of the tally loop: bumping the name of the communication's method (when
      its type is known) keeps every key equal to its frequency over one more event. */
  lemma TallyStep(methods: seq<CommunicationMethod>, prefix: seq<Communication>, comm: Communication,
                  count: map<string, nat>)
    requires count.Keys == NameSet(methods)
    requires forall name :: name in count ==> count[name] == Frequency(methods, prefix, name)
    ensures MethodOf(methods, comm).None? ==>
              forall name :: name in count ==> count[name] == Frequency(methods, prefix + [comm], name)
    ensures MethodOf(methods, comm).Some? ==>
              var n := MethodOf(methods, comm).value.name;
              n in count &&
              forall name :: name in count ==>
                count[n := count[n] + 1][name] == Frequency(methods, prefix + [comm], name)
  {
    forall name {
      FrequencyStep(methods, prefix, comm, name);
    }
    var found := MethodOf(methods, comm);
    if found.Some? {
      assert found.value in methods;
      assert found.value.name in NameSet(methods);
    }
  }

  /** No communication is ever tallied under a name that no method carries. */
  lemma {:induction false} FrequencyOfUnknownName(methods: seq<CommunicationMethod>, comms: seq<Communication>,
                                                  name: string)
    requires name !in NameSet(methods)
    ensures Frequency(methods, comms, name) == 0
  {
    if comms != [] {
      FrequencyOfUnknownName(methods, comms[..|comms| - 1], name);
      var m := MethodOf(methods, comms[|comms| - 1]);
      if m.Some? {
        assert m.value in methods;
      }
    }
  }

  /** The communications whose type is the id of some method. */
  function Known(methods: seq<CommunicationMethod>, comms: seq<Communication>): seq<Communication> {
    Keep(comms, (c: Communication) => MethodOf(methods, c).Some?)
  }

  /** The sum of the tallies of the given names. */
  function SumFrequencies(names: seq<string>, methods: seq<CommunicationMethod>, comms: seq<Communication>): nat {
    if names == [] then 0
    else Frequency(methods, comms, names[0]) + SumFrequencies(names[1..], methods, comms)
  }

  /** How often `x` occurs in `names`. */
  function Occurrences(names: seq<string>, x: string): nat {
    if names == [] then 0 else (if names[0] == x then 1 else 0) + Occurrences(names[1..], x)
  }

  lemma {:induction false} OccurrencesDistinct(names: seq<string>, x: string)
    requires forall i, j :: 0 <= i < j < |names| ==> names[i] != names[j]
    ensures Occurrences(names, x) == if x in names then 1 else 0
  {
    if names != [] {
      OccurrencesDistinct(names[1..], x);
      if names[0] == x {
        assert x !in names[1..] by {
          forall k | 0 <= k < |names[1..]| ensures names[1..][k] != x {
            assert names[1..][k] == names[k + 1];
          }
        }
      }
    }
  }

  lemma {:induction false} SumFrequenciesEmpty(names: seq<string>, methods: seq<CommunicationMethod>)
    ensures SumFrequencies(names, methods, []) == 0
  {
    if names != [] {
      SumFrequenciesEmpty(names[1..], methods);
    }
  }

  lemma {:induction false} SumFrequenciesStep(names: seq<string>, methods: seq<CommunicationMethod>,
                                              comms: seq<Communication>, comm: Communication)
    ensures SumFrequencies(names, methods, comms + [comm]) ==
            SumFrequencies(names, methods, comms) +
            (if MethodOf(methods, comm).Some? then Occurrences(names, MethodOf(methods, comm).value.name) else 0)
  {
    if names != [] {
      FrequencyStep(methods, comms, comm, names[0]);
      SumFrequenciesStep(names[1..], methods, comms, comm);
    }
  }

  lemma KnownStep(methods: seq<CommunicationMethod>, comms: seq<Communication>, comm: Communication)
    ensures |Known(methods, comms + [comm])| ==
            |Known(methods, comms)| + (if MethodOf(methods, comm).Some? then 1 else 0)
  {
    KeepAppend(comms, [comm], (c: Communication) => MethodOf(methods, c).Some?);
    assert [comm][1..] == [];
  }

  /** The name a communication is tallied under is one of the tally's keys, exactly once. */
  lemma TalliedNameOccursOnce(methods: seq<CommunicationMethod>, comm: Communication)
    requires MethodOf(methods, comm).Some?
    ensures Occurrences(DistinctNames(methods), MethodOf(methods, comm).value.name) == 1
  {
    var m := MethodOf(methods, comm).value;
    assert m in methods;
    assert m.name in DistinctNames(methods);
    OccurrencesDistinct(DistinctNames(methods), m.name);
  }

  /** Summed over the tally's keys, the counts are the number of communications whose
      type is a known method id, whether or not method names repeat. */
  lemma {:induction false} CountsSumToKnown(methods: seq<CommunicationMethod>, comms: seq<Communication>)
    ensures SumFrequencies(DistinctNames(methods), methods, comms) == |Known(methods, comms)|
  {
    var names := DistinctNames(methods);
    if comms == [] {
      SumFrequenciesEmpty(names, methods);
    } else {
      var init := comms[..|comms| - 1];
      var last := comms[|comms| - 1];
      assert comms == init + [last];
      CountsSumToKnown(methods, init);
      SumFrequenciesStep(names, methods, init, last);
      KnownStep(methods, init, last);
      if MethodOf(methods, last).Some? {
        TalliedNameOccursOnce(methods, last);
      }
    }
  }

  // ---------------------------------------------------------------------------
  // CSV export

  /** One CSV record: `{'Communication Method': name, 'Frequency': count}`. */
  datatype CsvRow = CsvRow(communicationMethod: string, frequency: nat)

  /** `Object.keys(communicationCount).map(key => row(key, communicationCount[key]))` */
  function CsvRows(keys: seq<string>, count: map<string, nat>): (rows: seq<CsvRow>)
    requires forall k :: k in keys ==> k in count
    ensures |rows| == |keys|
    ensures forall i :: 0 <= i < |keys| ==> rows[i] == CsvRow(keys[i], count[keys[i]])
  {
    if keys == [] then [] else [CsvRow(keys[0], count[keys[0]])] + CsvRows(keys[1..], count)
  }

  /** The sum of a report's frequency column. */
  function ColumnTotal(rows: seq<CsvRow>): nat {
    if rows == [] then 0 else rows[0].frequency + ColumnTotal(rows[1..])
  }

  lemma {:induction false} ColumnTotalIsSum(keys: seq<string>, count: map<string, nat>,
                                            methods: seq<CommunicationMethod>, comms: seq<Communication>)
    requires forall k :: k in keys ==> k in count && count[k] == Frequency(methods, comms, k)
    ensures ColumnTotal(CsvRows(keys, count)) == SumFrequencies(keys, methods, comms)
  {
    if keys != [] {
      ColumnTotalIsSum(keys[1..], count, methods, comms);
      assert CsvRows(keys, count)[1..] == CsvRows(keys[1..], count);
    }
  }

  /** For the tally that CommunicationCount produces, the CSV has one row per distinct
      method name and no other, each pairing the name with its tally, and the frequency
      column adds up to the number of communications of a known type. */
  lemma CsvReportIsFaithful(methods: seq<CommunicationMethod>, comms: seq<Communication>,
                            count: map<string, nat>, keys: seq<string>)
    requires keys == DistinctNames(methods)
    requires count.Keys == NameSet(methods)
    requires forall name :: name in count ==> count[name] == Frequency(methods, comms, name)
    ensures forall k :: k in keys ==> k in count
    ensures forall r :: r in CsvRows(keys, count) ==>
              r.communicationMethod in NameSet(methods) &&
              r.frequency == Frequency(methods, comms, r.communicationMethod)
    ensures forall m :: m in methods ==> exists r :: r in CsvRows(keys, count) && r.communicationMethod == m.name
    ensures forall i, j :: 0 <= i < j < |CsvRows(keys, count)| ==>
              CsvRows(keys, count)[i].communicationMethod != CsvRows(keys, count)[j].communicationMethod
    ensures ColumnTotal(CsvRows(keys, count)) == |Known(methods, comms)|
  {
    forall k | k in keys ensures k in count {
      var m :| m in methods && m.name == k;
      assert k in NameSet(methods);
    }
    var rows := CsvRows(keys, count);
    forall r | r in rows
      ensures r.communicationMethod in NameSet(methods)
      ensures r.frequency == Frequency(methods, comms, r.communicationMethod)
    {
      var i :| 0 <= i < |rows| && rows[i] == r;
      assert keys[i] in keys;
    }
    forall m | m in methods
      ensures exists r :: r in rows && r.communicationMethod == m.name
    {
      assert m.name in keys;
      var i :| 0 <= i < |keys| && keys[i] == m.name;
      assert rows[i] in rows;
    }
    forall i, j | 0 <= i < j < |rows|
      ensures rows[i].communicationMethod != rows[j].communicationMethod
    {
      assert rows[i].communicationMethod == keys[i] && rows[j].communicationMethod == keys[j];
    }
    ColumnTotalIsSum(keys, count, methods, comms);
    CountsSumToKnown(methods, comms);
  }
}
