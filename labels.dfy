/**
 * The label presets of config.py: a preset number selects a table from a
 * region's rank (1-based) to its display tag; any other preset number is an
 * error (`ValueError("Invalid preset number")`).
 */
module Labels {

  import opened Results

  datatype PresetError = InvalidPreset(preset: int)

  /** The tags of preset 1 in rank order: rank `k` gets `Preset1Tags[k - 1]`. */
  const Preset1Tags: seq<string> := [
    "U1", "U6", "U5", "R1", "U10",
    "G3", "R7", "R3", "G4", "U7",
    "U3", "R5", "U4", "R4", "G2",
    "U9", "R8", "U8", "R10", "R9",
    "G1", "R6", "R2", "U2"]

  /** The tags of preset 2, an example table that only covers ranks 1..5. */
  const Preset2Tags: seq<string> := ["A1", "B2", "C3", "D4", "E5"]

  /** The dictionary `{1: tags[0], 2: tags[1], ...}`. */
  function RankTable(tags: seq<string>): map<int, string>
  {
    map k | 1 <= k <= |tags| :: TagOfRank(tags, k)
  }

  function TagOfRank(tags: seq<string>, k: int): string
    requires 1 <= k <= |tags|
  {
    tags[k - 1]
  }

  const Preset1: map<int, string> := RankTable(Preset1Tags)

  const Preset2: map<int, string> := RankTable(Preset2Tags)

  /** No two ranks share a tag. */
  ghost predicate Injective(m: map<int, string>)
  {
    forall a, b :: a in m && b in m && a != b ==> m[a] != m[b]
  }

  /** The table has a tag for exactly the ranks `lo..hi`. */
  ghost predicate CoversExactly(m: map<int, string>, lo: int, hi: int)
  {
    forall k :: k in m <==> lo <= k <= hi
  }

  function ChooseLabel(preset: int): (r: Result<map<int, string>, PresetError>)
    ensures r.Ok? <==> preset == 1 || preset == 2
    ensures r.Err? ==> r.error == InvalidPreset(preset)
    ensures preset == 1 ==> r.Ok? && CoversExactly(r.value, 1, 24) && Injective(r.value)
    ensures preset == 2 ==> r.Ok? && CoversExactly(r.value, 1, 5) && Injective(r.value)
  {
    if preset == 1 then
      Preset1KeysAndInjective();
      Ok(Preset1)
    else if preset == 2 then
      Preset2KeysAndInjective();
      Ok(Preset2)
    else
      Err(InvalidPreset(preset))
  }

  /** A table built from pairwise different tags covers ranks 1..n and gives each rank its own tag. */
  lemma RankTableProperties(tags: seq<string>)
    requires forall i, j :: 0 <= i < j < |tags| ==> tags[i] != tags[j]
    ensures CoversExactly(RankTable(tags), 1, |tags|)
    ensures Injective(RankTable(tags))
  {
    var m := RankTable(tags);
    forall a, b | a in m && b in m && a != b
      ensures m[a] != m[b]
    {
      if a < b {
        assert tags[a - 1] != tags[b - 1];
      } else {
        assert tags[b - 1] != tags[a - 1];
      }
    }
  }

  lemma Preset1KeysAndInjective()
    ensures CoversExactly(Preset1, 1, 24)
    ensures Injective(Preset1)
  {
    assert forall i, j :: 0 <= i < j < |Preset1Tags| ==> Preset1Tags[i] != Preset1Tags[j];
    RankTableProperties(Preset1Tags);
  }

  lemma Preset2KeysAndInjective()
    ensures CoversExactly(Preset2, 1, 5)
    ensures Injective(Preset2)
  {
    assert forall i, j :: 0 <= i < j < |Preset2Tags| ==> Preset2Tags[i] != Preset2Tags[j];
    RankTableProperties(Preset2Tags);
  }

  /** Under preset 2 every rank above 5 has no tag. */
  lemma Preset2HasNoRankAboveFive(rank: int)
    requires rank > 5
    ensures ChooseLabel(2).Ok? && rank !in ChooseLabel(2).value
  {
  }
}
