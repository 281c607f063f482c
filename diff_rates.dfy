/** The diff and report engine of `scripts/auto-update/diff-rates.ts`:
    `diffState` compares the committed and the freshly scraped data of one
    state on the exact key `location|county|type`, and `main` adds the
    per-state diffs up and decides between auto-deploy and review.  Files
    are maps from file name to parsed dataset; a file that is missing or
    does not parse is absent from its map. */
module RateDiff {
  import opened Wrappers
  import opened Strings
  import opened Numbers
  import opened Json
  import opened StagedFiles

  const ThresholdPercent := 5
  const MaxRateChange := 0.03
  const CountSwingLimit := 20
  const RemovedLimit := 10

  /** An added or removed jurisdiction, shown as `${state}: ${location} (${county})`. */
  datatype JurisdictionRef = JurisdictionRef(state: string, location: Value, county: Value)

  datatype RateChange = RateChange(state: string, location: Value, county: Value,
                                   oldRate: Value, newRate: Value, diff: Number)

  datatype StructuralNote =
    | NewStateFile(state: string)
    | StateFileRemoved(state: string)
    | SourceChanged(state: string, oldSource: Value, newSource: Value)
    | CountSwing(state: string, amount: nat, oldCount: Option<nat>, newCount: Option<nat>)

  datatype StateDiff = StateDiff(changes: seq<RateChange>, added: seq<JurisdictionRef>,
                                 removed: seq<JurisdictionRef>, structural: seq<StructuralNote>)

  /** `Number(v)`, as `newRate - oldRate` coerces its operands. */
  function ToNumber(v: Value): Number {
    match v
    case Undefined => NaN
    case Null => Finite(0.0)
    case Bool(b) => Finite(if b then 1.0 else 0.0)
    case Num(n) => n
    case Str(s) => StringToNumber(s)
  }

  /** `data.jurisdictions?.length`. */
  function Length(d: Dataset): Option<nat> {
    if d.jurisdictions.Some? then Some(|d.jurisdictions.value|) else None
  }

  // ---------------------------------------------------------------------------
  // The lookup maps

  /** A JavaScript `Map` from record key to record: the keys in order of
      first insertion, and what each is bound to. */
  datatype Index = Index(keys: seq<string>, entries: map<string, Record>)

  predicate Distinct(ks: seq<string>) {
    forall a, b :: 0 <= a < b < |ks| ==> ks[a] != ks[b]
  }

  predicate WellFormed(idx: Index) {
    Distinct(idx.keys) && idx.entries.Keys == set k | k in idx.keys
  }

  /** `map.set(key(j), j)` for each record in order: a repeated key keeps its
      place and takes the later record. */
  function BuildIndex(js: seq<Record>): (r: Index)
    ensures WellFormed(r)
    decreases |js|
  {
    if js == [] then Index([], map[])
    else
      var idx := BuildIndex(js[..|js| - 1]);
      var j := js[|js| - 1];
      var k := RecordKey(j);
      Index(if k in idx.entries then idx.keys else idx.keys + [k], idx.entries[k := j])
  }

  /** Step one of the map build. */
  lemma BuildIndexStep(js: seq<Record>, i: nat)
    requires i < |js|
    ensures var idx := BuildIndex(js[..i]);
            var k := RecordKey(js[i]);
            BuildIndex(js[..i + 1]) == Index(if k in idx.entries then idx.keys else idx.keys + [k], idx.entries[k := js[i]])
  {
    assert js[..i + 1][..i] == js[..i];
  }

  /** The loop that fills one lookup map. */
  method IndexRecords(js: seq<Record>) returns (idx: Index)
    ensures idx == BuildIndex(js)
  {
    var keys: seq<string> := [];
    var entries: map<string, Record> := map[];
    for i := 0 to |js|
      invariant Index(keys, entries) == BuildIndex(js[..i])
    {
      BuildIndexStep(js, i);
      var k := RecordKey(js[i]);
      if k !in entries {
        keys := keys + [k];
      }
      entries := entries[k := js[i]];
    }
    assert js[..|js|] == js;
    idx := Index(keys, entries);
  }

  /** The position of the last record with key `k`, or -1 when none has it. */
  function LastWith(js: seq<Record>, k: string): (r: int)
    ensures -1 <= r < |js|
    ensures r >= 0 ==> RecordKey(js[r]) == k
    ensures forall b :: r < b < |js| ==> RecordKey(js[b]) != k
    decreases |js|
  {
    if js == [] then -1
    else if RecordKey(js[|js| - 1]) == k then |js| - 1
    else LastWith(js[..|js| - 1], k)
  }

  /** The map holds exactly the records' keys, each bound to the last record
      carrying it. */
  lemma {:induction false} IndexMeaning(js: seq<Record>, k: string)
    ensures k in BuildIndex(js).entries <==> LastWith(js, k) >= 0
    ensures k in BuildIndex(js).entries ==> BuildIndex(js).entries[k] == js[LastWith(js, k)]
    decreases |js|
  {
    if js != [] {
      var pre := js[..|js| - 1];
      IndexMeaning(pre, k);
      if RecordKey(js[|js| - 1]) != k && LastWith(pre, k) >= 0 {
        assert pre[LastWith(pre, k)] == js[LastWith(pre, k)];
      }
    }
  }

  // ---------------------------------------------------------------------------
  // diffState

  /** The keys of `ks`, in order, that `m` does not hold. */
  function KeysNotIn(ks: seq<string>, m: map<string, Record>): (r: seq<string>)
    decreases |ks|
  {
    if ks == [] then []
    else
      var k := ks[|ks| - 1];
      KeysNotIn(ks[..|ks| - 1], m) + (if k !in m then [k] else [])
  }

  /** `oldJ.rate !== newJ.rate`. */
  predicate RateDiffers(oldJ: Record, newJ: Record) {
    !StrictEquals(Get(oldJ, "rate"), Get(newJ, "rate"))
  }

  /** The keys of `ks`, in order, that both maps hold with different rates. */
  function ChangedKeys(ks: seq<string>, om: map<string, Record>, nm: map<string, Record>): (r: seq<string>)
    decreases |ks|
  {
    if ks == [] then []
    else
      var k := ks[|ks| - 1];
      ChangedKeys(ks[..|ks| - 1], om, nm) +
      (if k in om && k in nm && RateDiffers(om[k], nm[k]) then [k] else [])
  }

  function RefOf(state: string, j: Record): JurisdictionRef {
    JurisdictionRef(state, Get(j, "location"), Get(j, "county"))
  }

  /** The entries shown for the keys `ks`, looked up in `m`. */
  function Refs(state: string, ks: seq<string>, m: map<string, Record>): seq<JurisdictionRef>
    decreases |ks|
  {
    if ks == [] then []
    else
      var k := ks[|ks| - 1];
      Refs(state, ks[..|ks| - 1], m) + (if k in m then [RefOf(state, m[k])] else [])
  }

  function ChangeOf(state: string, oldJ: Record, newJ: Record): RateChange {
    RateChange(state, Get(newJ, "location"), Get(newJ, "county"), Get(oldJ, "rate"), Get(newJ, "rate"),
               Sub(ToNumber(Get(newJ, "rate")), ToNumber(Get(oldJ, "rate"))))
  }

  /** The rate changes recorded for the keys `ks`. */
  function Changes(state: string, ks: seq<string>, om: map<string, Record>, nm: map<string, Record>): seq<RateChange>
    decreases |ks|
  {
    if ks == [] then []
    else
      var k := ks[|ks| - 1];
      Changes(state, ks[..|ks| - 1], om, nm) + (if k in om && k in nm then [ChangeOf(state, om[k], nm[k])] else [])
  }

  function CountDiff(oldCount: nat, newCount: nat): nat {
    if newCount >= oldCount then newCount - oldCount else oldCount - newCount
  }

  /** The structural notes of two present files. */
  function StructuralNotes(state: string, o: Dataset, n: Dataset): seq<StructuralNote> {
    var swing := CountDiff(Count(o), Count(n));
    (if !StrictEquals(Source(o), Source(n)) then [SourceChanged(state, Source(o), Source(n))] else []) +
    (if swing > CountSwingLimit then [CountSwing(state, swing, Length(o), Length(n))] else [])
  }

  /** What `diffState(state, oldData, newData)` returns; a missing file is None. */
  function DiffSpec(state: string, oldData: Option<Dataset>, newData: Option<Dataset>): StateDiff {
    if oldData.None? || newData.None? then
      StateDiff([], [], [],
                (if newData.Some? then [NewStateFile(state)] else []) +
                (if oldData.Some? then [StateFileRemoved(state)] else []))
    else
      var o, n := oldData.value, newData.value;
      var oi, ni := BuildIndex(Records(o)), BuildIndex(Records(n));
      StateDiff(Changes(state, ChangedKeys(ni.keys, oi.entries, ni.entries), oi.entries, ni.entries),
                Refs(state, KeysNotIn(ni.keys, oi.entries), ni.entries),
                Refs(state, KeysNotIn(oi.keys, ni.entries), oi.entries),
                StructuralNotes(state, o, n))
  }

  lemma KeysStep(ks: seq<string>, i: nat, om: map<string, Record>, nm: map<string, Record>)
    requires i < |ks|
    ensures KeysNotIn(ks[..i + 1], om) ==
              if ks[i] !in om then KeysNotIn(ks[..i], om) + [ks[i]] else KeysNotIn(ks[..i], om)
    ensures ChangedKeys(ks[..i + 1], om, nm) ==
              if ks[i] in om && ks[i] in nm && RateDiffers(om[ks[i]], nm[ks[i]])
              then ChangedKeys(ks[..i], om, nm) + [ks[i]] else ChangedKeys(ks[..i], om, nm)
  {
    assert ks[..i + 1][..i] == ks[..i];
    assert KeysNotIn(ks[..i], om) + [] == KeysNotIn(ks[..i], om);
    assert ChangedKeys(ks[..i], om, nm) + [] == ChangedKeys(ks[..i], om, nm);
  }

  lemma RefsAppend(state: string, ks: seq<string>, k: string, m: map<string, Record>)
    requires k in m
    ensures Refs(state, ks + [k], m) == Refs(state, ks, m) + [RefOf(state, m[k])]
  {
    assert (ks + [k])[..|ks|] == ks;
  }

  lemma ChangesAppend(state: string, ks: seq<string>, k: string, om: map<string, Record>, nm: map<string, Record>)
    requires k in om && k in nm
    ensures Changes(state, ks + [k], om, nm) == Changes(state, ks, om, nm) + [ChangeOf(state, om[k], nm[k])]
  {
    assert (ks + [k])[..|ks|] == ks;
  }

  /** The walk over the new map: additions and rate changes. */
  method CompareNew(state: string, oi: Index, ni: Index) returns (changes: seq<RateChange>, added: seq<JurisdictionRef>)
    requires WellFormed(oi) && WellFormed(ni)
    ensures changes == Changes(state, ChangedKeys(ni.keys, oi.entries, ni.entries), oi.entries, ni.entries)
    ensures added == Refs(state, KeysNotIn(ni.keys, oi.entries), ni.entries)
  {
    var nk := ni.keys;
    changes, added := [], [];
    for i := 0 to |nk|
      invariant changes == Changes(state, ChangedKeys(nk[..i], oi.entries, ni.entries), oi.entries, ni.entries)
      invariant added == Refs(state, KeysNotIn(nk[..i], oi.entries), ni.entries)
    {
      var k := nk[i];
      KeysStep(nk, i, oi.entries, ni.entries);
      var newJ := ni.entries[k];
      if k !in oi.entries {
        RefsAppend(state, KeysNotIn(nk[..i], oi.entries), k, ni.entries);
        added := added + [RefOf(state, newJ)];
      } else if RateDiffers(oi.entries[k], newJ) {
        ChangesAppend(state, ChangedKeys(nk[..i], oi.entries, ni.entries), k, oi.entries, ni.entries);
        changes := changes + [ChangeOf(state, oi.entries[k], newJ)];
      }
    }
    assert nk[..|nk|] == nk;
  }

  /** The walk over the old map: removals. */
  method FindRemoved(state: string, oi: Index, ni: Index) returns (removed: seq<JurisdictionRef>)
    requires WellFormed(oi)
    ensures removed == Refs(state, KeysNotIn(oi.keys, ni.entries), oi.entries)
  {
    var ok := oi.keys;
    removed := [];
    for i := 0 to |ok|
      invariant removed == Refs(state, KeysNotIn(ok[..i], ni.entries), oi.entries)
    {
      var k := ok[i];
      KeysStep(ok, i, ni.entries, ni.entries);
      if k !in ni.entries {
        RefsAppend(state, KeysNotIn(ok[..i], ni.entries), k, oi.entries);
        removed := removed + [RefOf(state, oi.entries[k])];
      }
    }
    assert ok[..|ok|] == ok;
  }

  /** `diffState(state, oldData, newData)`. */
  method DiffState(state: string, oldData: Option<Dataset>, newData: Option<Dataset>) returns (r: StateDiff)
    ensures r == DiffSpec(state, oldData, newData)
  {
    var structural: seq<StructuralNote> := [];
    if oldData.None? || newData.None? {
      if newData.Some? && oldData.None? {
        structural := structural + [NewStateFile(state)];
      }
      if oldData.Some? && newData.None? {
        structural := structural + [StateFileRemoved(state)];
      }
      return StateDiff([], [], [], structural);
    }
    var o, n := oldData.value, newData.value;

    if !StrictEquals(Source(o), Source(n)) {
      structural := [SourceChanged(state, Source(o), Source(n))];
    }

    var oi := IndexRecords(Records(o));
    var ni := IndexRecords(Records(n));
    var changes, added := CompareNew(state, oi, ni);
    var removed := FindRemoved(state, oi, ni);

    var countDiff := CountDiff(Count(o), Count(n));
    if countDiff > CountSwingLimit {
      structural := structural + [CountSwing(state, countDiff, Length(o), Length(n))];
    }
    r := StateDiff(changes, added, removed, structural);
  }

  // ---------------------------------------------------------------------------
  // Properties of diffState

  /** With a file missing on one side there is only the note saying which. */
  lemma MissingFileDiff(state: string, oldData: Option<Dataset>, newData: Option<Dataset>)
    requires oldData.None? || newData.None?
    ensures var r := DiffSpec(state, oldData, newData);
            r.changes == [] && r.added == [] && r.removed == [] &&
            r.structural == (if oldData.None? && newData.Some? then [NewStateFile(state)]
                             else if oldData.Some? && newData.None? then [StateFileRemoved(state)]
                             else [])
  {
  }

  /** The records' keys, as a set. */
  function KeySet(d: Dataset): set<string> {
    set a | 0 <= a < |Records(d)| :: RecordKey(Records(d)[a])
  }

  lemma IndexKeys(d: Dataset)
    ensures BuildIndex(Records(d)).entries.Keys == KeySet(d)
  {
    var js := Records(d);
    forall k ensures k in BuildIndex(js).entries <==> k in KeySet(d) {
      IndexMeaning(js, k);
      if LastWith(js, k) >= 0 {
        assert RecordKey(js[LastWith(js, k)]) in KeySet(d);
      }
    }
  }

  lemma {:induction false} KeysNotInMeaning(ks: seq<string>, m: map<string, Record>, k: string)
    ensures k in KeysNotIn(ks, m) <==> k in ks && k !in m
    decreases |ks|
  {
    if ks != [] {
      KeysNotInMeaning(ks[..|ks| - 1], m, k);
      assert ks == ks[..|ks| - 1] + [ks[|ks| - 1]];
    }
  }

  lemma {:induction false} ChangedKeysMeaning(ks: seq<string>, om: map<string, Record>, nm: map<string, Record>, k: string)
    ensures k in ChangedKeys(ks, om, nm) <==> k in ks && k in om && k in nm && RateDiffers(om[k], nm[k])
    decreases |ks|
  {
    if ks != [] {
      ChangedKeysMeaning(ks[..|ks| - 1], om, nm, k);
      assert ks == ks[..|ks| - 1] + [ks[|ks| - 1]];
    }
  }

  lemma {:induction false} KeysNotInDistinct(ks: seq<string>, m: map<string, Record>)
    requires Distinct(ks)
    ensures Distinct(KeysNotIn(ks, m))
    decreases |ks|
  {
    if ks != [] {
      var pre := ks[..|ks| - 1];
      assert Distinct(pre);
      KeysNotInDistinct(pre, m);
      KeysNotInMeaning(pre, m, ks[|ks| - 1]);
      assert ks[|ks| - 1] !in pre;
    }
  }

  lemma {:induction false} ChangedKeysDistinct(ks: seq<string>, om: map<string, Record>, nm: map<string, Record>)
    requires Distinct(ks)
    ensures Distinct(ChangedKeys(ks, om, nm))
    decreases |ks|
  {
    if ks != [] {
      var pre := ks[..|ks| - 1];
      assert Distinct(pre);
      ChangedKeysDistinct(pre, om, nm);
      ChangedKeysMeaning(pre, om, nm, ks[|ks| - 1]);
      assert ks[|ks| - 1] !in pre;
    }
  }

  /** Keys that all have an entry are each shown once. */
  lemma {:induction false} RefsLength(state: string, ks: seq<string>, m: map<string, Record>)
    requires forall k :: k in ks ==> k in m
    ensures |Refs(state, ks, m)| == |ks|
    decreases |ks|
  {
    if ks != [] {
      RefsLength(state, ks[..|ks| - 1], m);
      assert ks[|ks| - 1] in ks;
    }
  }

  lemma {:induction false} ChangesLength(state: string, ks: seq<string>, om: map<string, Record>, nm: map<string, Record>)
    requires forall k :: k in ks ==> k in om && k in nm
    ensures |Changes(state, ks, om, nm)| == |ks|
    decreases |ks|
  {
    if ks != [] {
      ChangesLength(state, ks[..|ks| - 1], om, nm);
      assert ks[|ks| - 1] in ks;
    }
  }

  /** A list without repeats has as many elements as its set. */
  lemma {:induction false} DistinctCard(ks: seq<string>)
    requires Distinct(ks)
    ensures |set k | k in ks| == |ks|
    decreases |ks|
  {
    if ks != [] {
      var pre := ks[..|ks| - 1];
      assert Distinct(pre);
      DistinctCard(pre);
      assert ks[|ks| - 1] !in pre;
      assert (set k | k in ks) == (set k | k in pre) + {ks[|ks| - 1]} by {
        assert ks == pre + [ks[|ks| - 1]];
      }
    }
  }

  /** On the exact key, the additions are the new keys the old data lacks
      and the removals the old keys the new data lacks. */
  lemma AddedRemovedKeys(o: Dataset, n: Dataset)
    ensures var oi, ni := BuildIndex(Records(o)), BuildIndex(Records(n));
            (set k | k in KeysNotIn(ni.keys, oi.entries)) == KeySet(n) - KeySet(o) &&
            (set k | k in KeysNotIn(oi.keys, ni.entries)) == KeySet(o) - KeySet(n)
  {
    IndexKeys(o);
    IndexKeys(n);
    var oi, ni := BuildIndex(Records(o)), BuildIndex(Records(n));
    forall k ensures k in KeysNotIn(ni.keys, oi.entries) <==> k in KeySet(n) - KeySet(o) {
      KeysNotInMeaning(ni.keys, oi.entries, k);
    }
    forall k ensures k in KeysNotIn(oi.keys, ni.entries) <==> k in KeySet(o) - KeySet(n) {
      KeysNotInMeaning(oi.keys, ni.entries, k);
    }
  }

  /** The rate changes are the shared keys whose rates differ. */
  lemma ChangedKeySet(o: Dataset, n: Dataset)
    ensures var oi, ni := BuildIndex(Records(o)), BuildIndex(Records(n));
            (set k | k in ChangedKeys(ni.keys, oi.entries, ni.entries)) ==
            (set k | k in KeySet(o) * KeySet(n) && k in oi.entries && k in ni.entries && RateDiffers(oi.entries[k], ni.entries[k]))
  {
    IndexKeys(o);
    IndexKeys(n);
    var oi, ni := BuildIndex(Records(o)), BuildIndex(Records(n));
    forall k ensures k in ChangedKeys(ni.keys, oi.entries, ni.entries) <==>
                     k in KeySet(o) * KeySet(n) && k in oi.entries && k in ni.entries && RateDiffers(oi.entries[k], ni.entries[k]) {
      ChangedKeysMeaning(ni.keys, oi.entries, ni.entries, k);
    }
  }

  /** No key is at once added, removed and changed: the three key sets of a
      diff are pairwise disjoint. */
  lemma DiffKeysDisjoint(o: Dataset, n: Dataset)
    ensures var oi, ni := BuildIndex(Records(o)), BuildIndex(Records(n));
            var added := set k | k in KeysNotIn(ni.keys, oi.entries);
            var removed := set k | k in KeysNotIn(oi.keys, ni.entries);
            var changed := set k | k in ChangedKeys(ni.keys, oi.entries, ni.entries);
            added * removed == {} && added * changed == {} && removed * changed == {}
  {
    var oi, ni := BuildIndex(Records(o)), BuildIndex(Records(n));
    AddedRemovedKeys(o, n);
    ChangedKeySet(o, n);
  }

  /** The diff of two present files counts each key at most once: there are
      as many additions as keys only the new file has, as many removals as
      keys only the old file has, and as many rate changes as shared keys
      whose rates differ. */
  lemma DiffCounts(state: string, o: Dataset, n: Dataset)
    ensures var r := DiffSpec(state, Some(o), Some(n));
            var oi, ni := BuildIndex(Records(o)), BuildIndex(Records(n));
            |r.added| == |KeySet(n) - KeySet(o)| &&
            |r.removed| == |KeySet(o) - KeySet(n)| &&
            |r.changes| == |set k | k in KeySet(o) * KeySet(n) && k in oi.entries && k in ni.entries && RateDiffers(oi.entries[k], ni.entries[k])|
  {
    var oi, ni := BuildIndex(Records(o)), BuildIndex(Records(n));
    var added, removed := KeysNotIn(ni.keys, oi.entries), KeysNotIn(oi.keys, ni.entries);
    var changed := ChangedKeys(ni.keys, oi.entries, ni.entries);
    AddedRemovedKeys(o, n);
    ChangedKeySet(o, n);
    KeysNotInDistinct(ni.keys, oi.entries);
    KeysNotInDistinct(oi.keys, ni.entries);
    ChangedKeysDistinct(ni.keys, oi.entries, ni.entries);
    DistinctCard(added);
    DistinctCard(removed);
    DistinctCard(changed);
    forall k | k in added ensures k in ni.entries {
      KeysNotInMeaning(ni.keys, oi.entries, k);
    }
    forall k | k in removed ensures k in oi.entries {
      KeysNotInMeaning(oi.keys, ni.entries, k);
    }
    forall k | k in changed ensures k in oi.entries && k in ni.entries {
      ChangedKeysMeaning(ni.keys, oi.entries, ni.entries, k);
    }
    RefsLength(state, added, ni.entries);
    RefsLength(state, removed, oi.entries);
    ChangesLength(state, changed, oi.entries, ni.entries);
  }

  /** Every recorded change is between two rates that are not strictly equal. */
  lemma {:induction false} ChangesDiffer(state: string, ks: seq<string>, om: map<string, Record>, nm: map<string, Record>)
    ensures forall c :: c in Changes(state, ChangedKeys(ks, om, nm), om, nm) ==> !StrictEquals(c.oldRate, c.newRate)
    decreases |ks|
  {
    if ks != [] {
      var pre, k := ks[..|ks| - 1], ks[|ks| - 1];
      ChangesDiffer(state, pre, om, nm);
      if k in om && k in nm && RateDiffers(om[k], nm[k]) {
        ChangesAppend(state, ChangedKeys(pre, om, nm), k, om, nm);
      } else {
        assert ChangedKeys(pre, om, nm) + [] == ChangedKeys(pre, om, nm);
      }
    }
  }

  /** Each rate change in a diff is between rates that differ. */
  lemma DiffChangesDiffer(state: string, o: Dataset, n: Dataset)
    ensures forall c :: c in DiffSpec(state, Some(o), Some(n)).changes ==> !StrictEquals(c.oldRate, c.newRate)
  {
    var oi, ni := BuildIndex(Records(o)), BuildIndex(Records(n));
    ChangesDiffer(state, ni.keys, oi.entries, ni.entries);
  }

  /** A JSON file holds no NaN: every rate and the source are JSON values. */
  predicate FromJson(d: Dataset) {
    Source(d) != Num(NaN) && forall a :: 0 <= a < |Records(d)| ==> Get(Records(d)[a], "rate") != Num(NaN)
  }

  /** Diffing a file against itself finds nothing at all. */
  lemma SelfDiff(state: string, d: Dataset)
    requires FromJson(d)
    ensures DiffSpec(state, Some(d), Some(d)) == StateDiff([], [], [], [])
  {
    var idx := BuildIndex(Records(d));
    forall k | k in idx.entries ensures !RateDiffers(idx.entries[k], idx.entries[k]) {
      IndexMeaning(Records(d), k);
    }
    assert ChangedKeys(idx.keys, idx.entries, idx.entries) == [] by {
      if ChangedKeys(idx.keys, idx.entries, idx.entries) != [] {
        var k := ChangedKeys(idx.keys, idx.entries, idx.entries)[0];
        ChangedKeysMeaning(idx.keys, idx.entries, idx.entries, k);
      }
    }
    assert KeysNotIn(idx.keys, idx.entries) == [] by {
      if KeysNotIn(idx.keys, idx.entries) != [] {
        var k := KeysNotIn(idx.keys, idx.entries)[0];
        KeysNotInMeaning(idx.keys, idx.entries, k);
      }
    }
  }

  /** A change of source and a count swing above 20 each add exactly one note. */
  lemma StructuralNoteCount(state: string, o: Dataset, n: Dataset)
    ensures |DiffSpec(state, Some(o), Some(n)).structural| ==
            (if !StrictEquals(Source(o), Source(n)) then 1 else 0) +
            (if CountDiff(Count(o), Count(n)) > CountSwingLimit then 1 else 0)
    ensures SourceChanged(state, Source(o), Source(n)) in DiffSpec(state, Some(o), Some(n)).structural
            <==> !StrictEquals(Source(o), Source(n))
  {
  }

  // ---------------------------------------------------------------------------
  // main: totals, classification and exit code

  datatype DiffReport = DiffReport(
    totalJurisdictions: nat,
    changedJurisdictions: nat,
    changePercent: Number,          // rounded to two decimals
    newJurisdictions: seq<JurisdictionRef>,
    removedJurisdictions: seq<JurisdictionRef>,
    rateChanges: seq<RateChange>,
    structuralChanges: seq<StructuralNote>,
    needsReview: bool,
    autoDeployable: bool)

  /** `allChanges.some(c => Math.abs(c.diff) > MAX_RATE_CHANGE)`. */
  predicate LargeRateJump(changes: seq<RateChange>) {
    exists i :: 0 <= i < |changes| && Above(Abs(changes[i].diff), MaxRateChange)
  }

  /** The report built from the accumulated diff. */
  function Classify(total: nat, all: StateDiff): (r: DiffReport)
    ensures r.autoDeployable ==> !r.needsReview
  {
    var changed := |all.changes| + |all.added| + |all.removed|;
    var percent := Percent(changed, total);
    var needsReview := percent > ThresholdPercent as real || |all.structural| > 0 ||
                       LargeRateJump(all.changes) || |all.removed| > RemovedLimit;
    DiffReport(total, changed, RoundTo(Finite(percent), 2), all.added, all.removed, all.changes, all.structural,
               needsReview, changed > 0 && !needsReview)
  }

  /** `totalJurisdictions`: the lengths of the staged files' arrays. */
  function StagedTotal(files: seq<string>, staged: map<string, Dataset>): nat
    decreases |files|
  {
    if files == [] then 0
    else
      var f := files[|files| - 1];
      StagedTotal(files[..|files| - 1], staged) +
      (if f in staged && staged[f].jurisdictions.Some? then |staged[f].jurisdictions.value| else 0)
  }

  function Concat(a: StateDiff, b: StateDiff): StateDiff {
    StateDiff(a.changes + b.changes, a.added + b.added, a.removed + b.removed, a.structural + b.structural)
  }

  /** The per-state diffs of `files`, concatenated in order. */
  function AllDiffs(files: seq<string>, staged: map<string, Dataset>, committed: map<string, Dataset>): StateDiff
    decreases |files|
  {
    if files == [] then StateDiff([], [], [], [])
    else
      var f := files[|files| - 1];
      Concat(AllDiffs(files[..|files| - 1], staged, committed), DiffSpec(StateOf(f), Load(committed, f), Load(staged, f)))
  }

  /** What `main` ends with: the exit code, and the report when one is written.
      `listing` is None when the staged directory does not exist. */
  function RunSpec(listing: Option<seq<string>>, staged: map<string, Dataset>, committed: map<string, Dataset>)
    : (int, Option<DiffReport>)
  {
    if listing.None? then (1, None)
    else
      var files := DataFiles(listing.value);
      if files == [] then (0, None)
      else
        var report := Classify(StagedTotal(files, staged), AllDiffs(files, staged, committed));
        (if report.needsReview then 2 else 0, Some(report))
  }

  /** The accumulation loop of `main`. */
  method Accumulate(files: seq<string>, staged: map<string, Dataset>, committed: map<string, Dataset>)
    returns (total: nat, all: StateDiff)
    ensures total == StagedTotal(files, staged)
    ensures all == AllDiffs(files, staged, committed)
  {
    total := 0;
    all := StateDiff([], [], [], []);
    for i := 0 to |files|
      invariant total == StagedTotal(files[..i], staged)
      invariant all == AllDiffs(files[..i], staged, committed)
    {
      var file := files[i];
      assert files[..i + 1][..i] == files[..i];
      var state := StateOf(file);
      var oldData := Load(committed, file);
      var newData := Load(staged, file);
      if newData.Some? && newData.value.jurisdictions.Some? {
        total := total + |newData.value.jurisdictions.value|;
      }
      var diff := DiffState(state, oldData, newData);
      all := Concat(all, diff);
    }
    assert files[..|files|] == files;
  }

  /** `main` of `diff-rates.ts`, from the directory listing to the exit code. */
  method Run(listing: Option<seq<string>>, staged: map<string, Dataset>, committed: map<string, Dataset>)
    returns (exitCode: int, report: Option<DiffReport>)
    ensures (exitCode, report) == RunSpec(listing, staged, committed)
  {
    if listing.None? {
      return 1, None;
    }
    var files := DataFiles(listing.value);
    if |files| == 0 {
      return 0, None;
    }
    var total, all := Accumulate(files, staged, committed);
    var r := Classify(total, all);
    report := Some(r);
    if r.needsReview {
      exitCode := 2;
    } else {
      exitCode := 0;
    }
  }

  // ---------------------------------------------------------------------------
  // Properties of the classification

  /** Review is needed exactly when more than 5% changed, a structural note
      exists, some rate moved by more than 0.03, or more than ten
      jurisdictions disappeared; an auto-deployable report has changes. */
  lemma ReviewRule(total: nat, all: StateDiff)
    ensures var r := Classify(total, all);
            var changed := |all.changes| + |all.added| + |all.removed|;
            r.changedJurisdictions == changed &&
            (r.needsReview <==>
               (total > 0 && changed * 100 > ThresholdPercent * total) || all.structural != [] ||
               LargeRateJump(all.changes) || |all.removed| > RemovedLimit) &&
            (r.autoDeployable <==> changed > 0 && !r.needsReview)
  {
    PercentAbove(|all.changes| + |all.added| + |all.removed|, total, ThresholdPercent);
  }

  /** The exit code is 2 exactly when the written report needs review; a
      missing directory is 1 and no data files is 0. */
  lemma ExitCodes(listing: Option<seq<string>>, staged: map<string, Dataset>, committed: map<string, Dataset>)
    ensures var (code, report) := RunSpec(listing, staged, committed);
            (code == 1 <==> listing.None?) &&
            (code == 2 <==> report.Some? && report.value.needsReview) &&
            (report.None? <==> listing.None? || DataFiles(listing.value) == []) &&
            (report.Some? ==> report.value.totalJurisdictions == StagedTotal(DataFiles(listing.value), staged))
  {
  }

  /** The concatenated diff has every state's entries: its counts are the sums. */
  lemma {:induction false} AllDiffsCounts(files: seq<string>, staged: map<string, Dataset>, committed: map<string, Dataset>)
    ensures var all := AllDiffs(files, staged, committed);
            |all.changes| + |all.added| + |all.removed| == ChangedSum(files, staged, committed)
    decreases |files|
  {
    if files != [] {
      AllDiffsCounts(files[..|files| - 1], staged, committed);
    }
  }

  /** The changed-jurisdiction count of each state, added up. */
  function ChangedSum(files: seq<string>, staged: map<string, Dataset>, committed: map<string, Dataset>): nat
    decreases |files|
  {
    if files == [] then 0
    else
      var f := files[|files| - 1];
      var d := DiffSpec(StateOf(f), Load(committed, f), Load(staged, f));
      ChangedSum(files[..|files| - 1], staged, committed) + |d.changes| + |d.added| + |d.removed|
  }
}
