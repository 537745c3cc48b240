/**
 The reverse index from a request to the instances holding its account. Each entry is a slice of a
 backing array, and removing an instance shifts the rest of the array down in place. The release loop
 walks over the slice it read at the start, so it sees that array while it is being shifted.
 */
module RequestIndex {
  import opened Lists

  type Instance(==, !new)

  // ---------------------------------------------------------------- the release loop over a shifting array

  /** A slice: its backing cells and how many of them belong to it. */
  datatype Cells = Cells(cells: seq<Instance>, len: nat) {
    predicate Valid() {
      len <= |cells|
    }

    function List(): seq<Instance>
      requires Valid()
    {
      cells[..len]
    }
  }

  /** Where the instance is listed first; past the end if it is not listed. */
  function FirstAt(ids: seq<Instance>, id: Instance): (i: nat)
    ensures i <= |ids|
  {
    if ids == [] || ids[0] == id then 0 else 1 + FirstAt(ids[1..], id)
  }

  lemma {:induction false} FoundAt(ids: seq<Instance>, i: nat)
    requires i < |ids| && ids[i] !in ids[..i]
    ensures FirstAt(ids, ids[i]) == i
    decreases |ids|
  {
    if i == 0 {
    } else {
      assert ids[0] in ids[..i];
      assert ids[1..][..i - 1] == ids[..i][1..];
      FoundAt(ids[1..], i - 1);
    }
  }

  lemma {:induction false} FirstAtMeans(ids: seq<Instance>, id: Instance)
    ensures var i := FirstAt(ids, id); id !in ids[..i] && (i < |ids| ==> ids[i] == id)
    decreases |ids|
  {
    if ids == [] || ids[0] == id {
    } else {
      FirstAtMeans(ids[1..], id);
      var i := FirstAt(ids, id);
      assert ids[..i] == [ids[0]] + ids[1..][..i - 1];
    }
  }

  /** The cells between i and the end of the slice moved down by one; the last of them stays where it was, too. */
  function Shifted(cells: seq<Instance>, i: nat, len: nat): seq<Instance>
    requires i < len <= |cells|
  {
    seq(|cells|, j requires 0 <= j < |cells| => if i <= j < len - 1 then cells[j + 1] else cells[j])
  }

  /** Dropping an instance moves the later cells down by one; the cells past the new end keep their old values. */
  function Drop(s: Cells, id: Instance): (t: Cells)
    requires s.Valid()
    ensures t.Valid() && |t.cells| == |s.cells|
  {
    var i := FirstAt(s.List(), id);
    if i < s.len then Cells(Shifted(s.cells, i, s.len), s.len - 1) else s
  }

  lemma ShiftedList(s: Cells, i: nat)
    requires s.Valid() && i < s.len
    ensures Shifted(s.cells, i, s.len)[..s.len - 1] == s.List()[..i] + s.List()[i + 1..]
  {
  }

  lemma DropIsWithout(s: Cells, id: Instance)
    requires s.Valid()
    ensures Drop(s, id).List() == Without(s.List(), id)
  {
    FirstAtMeans(s.List(), id);
    var i := FirstAt(s.List(), id);
    if i < s.len {
      WithoutAt(s.List(), i);
      ShiftedList(s, i);
    } else {
      assert s.List()[..i] == s.List();
      WithoutAbsent(s.List(), id);
    }
  }

  /** The slice after the loop has looked at the first n cells. */
  function Released(s: Cells, n: nat): (t: Cells)
    requires s.Valid() && n <= |s.cells|
    ensures t.Valid() && |t.cells| == |s.cells|
  {
    if n == 0 then s
    else
      var before := Released(s, n - 1);
      Drop(before, before.cells[n - 1])
  }

  /** Elements at positions 1, 3, 5, ... : the first k of them. */
  function Odds(ids: seq<Instance>, k: nat): seq<Instance>
    requires 2 * k <= |ids|
  {
    if k == 0 then [] else Odds(ids, k - 1) + [ids[2 * k - 1]]
  }

  /** Who is left in the index after a release: every second instance, without the last one. */
  function Survivors(ids: seq<Instance>): seq<Instance> {
    if ids == [] then [] else Odds(ids, (|ids| - 1) / 2)
  }

  lemma {:induction false} OddsAt(ids: seq<Instance>, k: nat)
    requires 2 * k <= |ids|
    ensures |Odds(ids, k)| == k && forall j :: 0 <= j < k ==> Odds(ids, k)[j] == ids[2 * j + 1]
    decreases k
  {
    if k == 0 {
    } else {
      OddsAt(ids, k - 1);
      var shorter := Odds(ids, k - 1);
      forall j | 0 <= j < k
        ensures (shorter + [ids[2 * k - 1]])[j] == ids[2 * j + 1]
      {
        if j < k - 1 {
          assert shorter[j] == ids[2 * j + 1];
        }
      }
    }
  }

  /** Cells past the end of the slice all hold the last instance. */
  ghost predicate StaleCells(s: Cells, last: Instance) {
    s.Valid() && forall j :: s.len <= j < |s.cells| ==> s.cells[j] == last
  }

  lemma DropAt(s: Cells, i: nat, last: Instance)
    requires StaleCells(s, last) && i < s.len && s.cells[s.len - 1] == last && s.cells[i] !in s.cells[..i]
    ensures Drop(s, s.cells[i]).List() == s.List()[..i] + s.List()[i + 1..]
    ensures StaleCells(Drop(s, s.cells[i]), last)
  {
    assert s.List()[i] == s.cells[i] && s.List()[..i] == s.cells[..i];
    FoundAt(s.List(), i);
    ShiftedList(s, i);
  }

  /** The slice half way: survivors so far, then what the loop has not reached. */
  function Half(ids: seq<Instance>, k: nat): seq<Instance>
    requires 2 * k <= |ids|
  {
    Odds(ids, k) + ids[2 * k..]
  }

  lemma HalfList(ids: seq<Instance>, k: nat)
    requires Distinct(ids) && 2 * k < |ids|
    ensures var list := Half(ids, k);
            && |list| == |ids| - k && list[k] == ids[2 * k]
            && list[k] !in list[..k] && list[|list| - 1] == ids[|ids| - 1]
            && list[..k] + list[k + 1..] == Odds(ids, k) + ids[2 * k + 1..]
  {
    OddsAt(ids, k);
    assert ids[2 * k..][1..] == ids[2 * k + 1..];
    assert Half(ids, k)[..k] == Odds(ids, k);
    forall j | 0 <= j < k
      ensures Odds(ids, k)[j] != ids[2 * k]
    {
      assert Odds(ids, k)[j] == ids[2 * j + 1];
    }
  }

  /** While the loop is inside the slice it removes the instance at twice its position. */
  lemma HalfStep(ids: seq<Instance>, s: Cells, k: nat)
    requires Distinct(ids) && 2 * k < |ids| && |s.cells| == |ids|
    requires StaleCells(s, ids[|ids| - 1]) && s.List() == Half(ids, k)
    ensures var t := Drop(s, s.cells[k]);
            t.List() == Odds(ids, k) + ids[2 * k + 1..] && StaleCells(t, ids[|ids| - 1])
  {
    HalfList(ids, k);
    assert s.cells[k] == s.List()[k] && s.cells[..k] == s.List()[..k];
    assert s.cells[s.len - 1] == s.List()[s.len - 1];
    DropAt(s, k, ids[|ids| - 1]);
  }

  lemma NextHalf(ids: seq<Instance>, k: nat)
    requires 0 < k && 2 * k <= |ids|
    ensures Half(ids, k) == Odds(ids, k - 1) + ids[2 * k - 1..]
  {
    assert ids[2 * k - 1..] == [ids[2 * k - 1]] + ids[2 * k..];
  }

  /** Only the survivors are left. */
  ghost predicate Over(ids: seq<Instance>, s: Cells)
    requires ids != []
  {
    StaleCells(s, ids[|ids| - 1]) && |s.cells| == |ids| && s.List() == Survivors(ids)
  }

  /** The loop has looked at k cells and is not past the middle. */
  ghost predicate Midway(ids: seq<Instance>, s: Cells, k: nat)
    requires ids != [] && 2 * k <= |ids|
  {
    StaleCells(s, ids[|ids| - 1]) && |s.cells| == |ids| && s.List() == Half(ids, k)
  }

  lemma FirstHalfStep(ids: seq<Instance>, s: Cells, t: Cells, k: nat)
    requires Distinct(ids) && 0 < k && 2 * k <= |ids| && Midway(ids, s, k - 1) && t == Drop(s, s.cells[k - 1])
    ensures Midway(ids, t, k)
  {
    HalfStep(ids, s, k - 1);
    NextHalf(ids, k);
  }

  lemma WholeList(ids: seq<Instance>)
    requires ids != []
    ensures Midway(ids, Cells(ids, |ids|), 0)
  {
    assert ids[..|ids|] == ids;
  }

  lemma LastIsNotSurvivor(ids: seq<Instance>)
    requires Distinct(ids) && ids != []
    ensures ids[|ids| - 1] !in Survivors(ids) && |Survivors(ids)| == (|ids| - 1) / 2
  {
    OddsAt(ids, (|ids| - 1) / 2);
  }

  /** At the middle the last instance goes, from inside the slice or as the stale cell just past it. */
  lemma MiddleStep(ids: seq<Instance>, s: Cells, k: nat)
    requires Distinct(ids) && 2 * k <= |ids| < 2 * k + 2 && k < |ids| && |s.cells| == |ids|
    requires StaleCells(s, ids[|ids| - 1]) && s.List() == Half(ids, k)
    ensures var t := Drop(s, s.cells[k]); t.List() == Survivors(ids) && StaleCells(t, ids[|ids| - 1])
  {
    if 2 * k < |ids| {
      HalfStep(ids, s, k);
      OddEnd(ids, k);
    } else {
      EvenEnd(ids, k);
      StaleStep(ids, s, k);
    }
  }

  lemma OddEnd(ids: seq<Instance>, k: nat)
    requires |ids| == 2 * k + 1
    ensures Survivors(ids) == Odds(ids, k) == Odds(ids, k) + ids[2 * k + 1..]
  {
    assert (|ids| - 1) / 2 == k && ids[2 * k + 1..] == [];
  }

  lemma EvenEnd(ids: seq<Instance>, k: nat)
    requires |ids| == 2 * k && k > 0
    ensures Survivors(ids) == Odds(ids, k - 1) && Half(ids, k) == Odds(ids, k)
  {
    assert (|ids| - 1) / 2 == k - 1 && ids[2 * k..] == [];
  }

  lemma StaleStep(ids: seq<Instance>, s: Cells, k: nat)
    requires Distinct(ids) && |ids| == 2 * k && 0 < k && |s.cells| == |ids|
    requires StaleCells(s, ids[|ids| - 1]) && s.List() == Odds(ids, k)
    ensures var t := Drop(s, s.cells[k]); t.List() == Odds(ids, k - 1) && StaleCells(t, ids[|ids| - 1])
  {
    var last := ids[|ids| - 1];
    OddsAt(ids, k - 1);
    assert s.List() == Odds(ids, k - 1) + [last];
    assert s.len == k;
    assert s.cells[k - 1] == s.List()[k - 1] == last && s.cells[k] == last;
    assert s.cells[..k - 1] == s.List()[..k - 1] == Odds(ids, k - 1);
    DropAt(s, k - 1, last);
  }

  lemma MiddleStepTo(ids: seq<Instance>, s: Cells, t: Cells, k: nat)
    requires Distinct(ids) && 2 * k <= |ids| < 2 * k + 2 && k < |ids| && Midway(ids, s, k) && t == Drop(s, s.cells[k])
    ensures Over(ids, t)
  {
    MiddleStep(ids, s, k);
  }

  lemma NothingLeftToDrop(ids: seq<Instance>, s: Cells, t: Cells, k: nat)
    requires Distinct(ids) && |ids| < 2 * k && k < |ids| && Over(ids, s) && t == Drop(s, s.cells[k])
    ensures t == s
  {
    LastIsNotSurvivor(ids);
    assert s.len == |s.List()| <= k;
    FirstAtMeans(s.List(), s.cells[k]);
  }

  /** The loop up to cell n: it removes every second instance, and past the middle only sees the last one again. */
  lemma {:induction false} RunTo(ids: seq<Instance>, n: nat) returns (s: Cells)
    requires Distinct(ids) && ids != [] && n <= |ids|
    ensures s == Released(Cells(ids, |ids|), n)
    ensures if 2 * n <= |ids| then Midway(ids, s, n) else Over(ids, s)
    decreases n
  {
    if n == 0 {
      s := Cells(ids, |ids|);
      WholeList(ids);
    } else {
      var before := RunTo(ids, n - 1);
      s := Drop(before, before.cells[n - 1]);
      LookAtCell(ids, before, s, n);
    }
  }

  lemma LookAtCell(ids: seq<Instance>, s: Cells, t: Cells, n: nat)
    requires Distinct(ids) && ids != [] && 0 < n <= |ids|
    requires if 2 * (n - 1) <= |ids| then Midway(ids, s, n - 1) else Over(ids, s)
    requires t == Drop(s, s.cells[n - 1])
    ensures if 2 * n <= |ids| then Midway(ids, t, n) else Over(ids, t)
  {
    if 2 * n <= |ids| {
      FirstHalfStep(ids, s, t, n);
    } else if 2 * (n - 1) <= |ids| {
      MiddleStepTo(ids, s, t, n - 1);
    } else {
      NothingLeftToDrop(ids, s, t, n - 1);
    }
  }

  /** What releasing a request leaves in its index entry, for any number of instances. */
  lemma ReleaseLeavesSurvivors(ids: seq<Instance>)
    requires Distinct(ids)
    ensures Released(Cells(ids, |ids|), |ids|).List() == Survivors(ids)
  {
    if ids != [] {
      var s := RunTo(ids, |ids|);
    }
  }

  /** A release clears the entry iff it lists at most two instances. */
  lemma ReleaseClearsIff(ids: seq<Instance>)
    requires Distinct(ids)
    ensures Released(Cells(ids, |ids|), |ids|).List() == [] <==> |ids| <= 2
    ensures |Survivors(ids)| == if ids == [] then 0 else (|ids| - 1) / 2
  {
    ReleaseLeavesSurvivors(ids);
    if ids != [] {
      LastIsNotSurvivor(ids);
    }
  }
}
