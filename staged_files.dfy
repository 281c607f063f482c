/** What the update scripts share about the staging area: which files hold
    state data, the state each belongs to, and the change percentage both the
    diff and the pre-commit gate compare against a threshold. */
module StagedFiles {
  import opened Wrappers
  import opened Strings
  import opened Json

  const DataFileSuffix := "-tax-rates.json"

  /** `file.replace('-tax-rates.json', '')`: the state as the file names it. */
  function StateName(file: string): string {
    ReplaceFirst(file, DataFileSuffix, "")
  }

  /** `file.replace('-tax-rates.json', '').toUpperCase()`. */
  function StateOf(file: string): string {
    Upper(StateName(file))
  }

  /** For a data file whose name holds the suffix only at its end, the state
      is the rest of the name (`ca-tax-rates.json` is `ca`, upper-cased `CA`). */
  lemma StateOfDataFile(file: string)
    requires EndsWith(file, DataFileSuffix)
    requires !Contains(file[..|file| - |DataFileSuffix|], DataFileSuffix)
    ensures StateName(file) == file[..|file| - |DataFileSuffix|]
    ensures StateOf(file) == Upper(file[..|file| - |DataFileSuffix|])
  {
    var n, w := |file| - |DataFileSuffix|, DataFileSuffix;
    assert file[n..] == w;
    forall i | 0 <= i < n ensures !OccursAt(file, w, i) {
      if i + |w| <= n {
        assert !OccursAt(file[..n], w, i);
        assert file[..n][i..i + |w|] == file[i..i + |w|];
      } else if n - i == 4 {
        // `-tax-` would have to line up with `-rates`.
        assert file[i + 5] == file[n..][1] == 't';
        assert file[i..i + |w|][5] == file[i + 5];
      } else {
        // The suffix's `-` at the start of the tail falls on a letter of the earlier copy.
        assert file[n] == file[n..][0] == '-';
        assert w[n - i] != '-';
        assert file[i..i + |w|][n - i] == file[n];
      }
    }
    assert OccursAt(file, w, n);
    assert IndexOf(file, w) == n;
    assert file[n + |w|..] == [];
  }

  /** A state name shorter than the suffix comes back out of its file name. */
  lemma StateNameOfShortState(state: string)
    requires |state| < |DataFileSuffix|
    ensures StateName(state + DataFileSuffix) == state
  {
    var file := state + DataFileSuffix;
    assert file[..|file| - |DataFileSuffix|] == state;
    assert file[|file| - |DataFileSuffix|..] == DataFileSuffix;
    StateOfDataFile(file);
  }

  /** `readdirSync(dir).filter(f => f.endsWith('-tax-rates.json'))`. */
  function DataFiles(listing: seq<string>): (r: seq<string>)
    ensures forall f :: f in r <==> f in listing && EndsWith(f, DataFileSuffix)
    decreases |listing|
  {
    if listing == [] then []
    else
      var f := listing[|listing| - 1];
      DataFiles(listing[..|listing| - 1]) + (if EndsWith(f, DataFileSuffix) then [f] else [])
  }

  /** A file of a directory, parsed; None when it is missing. */
  function Load(dir: map<string, Dataset>, file: string): Option<Dataset> {
    if file in dir then Some(dir[file]) else None
  }

  /** `(part / whole) * 100`, or 0 for an empty whole. */
  function Percent(part: nat, whole: nat): (r: real)
    ensures r >= 0.0
    ensures part <= whole ==> r <= 100.0
  {
    if whole > 0 then (part as real / whole as real) * 100.0 else 0.0
  }

  /** A percentage threshold is a cross-multiplication on the counts. */
  lemma PercentAbove(part: nat, whole: nat, limit: nat)
    ensures Percent(part, whole) > limit as real <==> whole > 0 && part * 100 > limit * whole
  {
    if whole > 0 {
      var w, l := whole as real, limit as real;
      var p := (part as real / w) * 100.0;
      assert p * w == part as real * 100.0;
      if p > l {
        assert p * w > l * w;
      } else {
        assert p * w <= l * w;
      }
    }
  }
}
