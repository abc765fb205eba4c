/**
 * The `ipo_info` table as a sequence of rows in primary-key order, the
 * delete statement over it and the three counts behind `/ipo-stats`.
 */
module Ipos {
  import opened Wrappers
  import opened Requests

  /** A row: the auto-increment id and the registered fields, a missing field stored as NULL. */
  datatype Ipo = Ipo(id: nat, fields: IpoRequest)

  /** Ids are positive, below the next auto-increment value and increase along the table. */
  predicate WellFormed(ipos: seq<Ipo>, nextId: nat) {
    && 1 <= nextId
    && (forall i :: 0 <= i < |ipos| ==> 1 <= ipos[i].id < nextId)
    && (forall i, j :: 0 <= i < j < |ipos| ==> ipos[i].id < ipos[j].id)
  }

  /** `DELETE FROM ipo_info WHERE id = ?` */
  function RemoveId(ipos: seq<Ipo>, id: int): (r: seq<Ipo>)
    ensures forall x :: x in r <==> x in ipos && x.id != id
    ensures (forall x :: x in ipos ==> x.id != id) ==> r == ipos
  {
    if ipos == [] then []
    else if ipos[0].id == id then RemoveId(ipos[1..], id)
    else [ipos[0]] + RemoveId(ipos[1..], id)
  }

  /** With unique ids, deleting the id of row `k` removes that row and keeps the others in order. */
  lemma {:induction false} RemoveOnlyThatRow(ipos: seq<Ipo>, nextId: nat, k: nat)
    requires WellFormed(ipos, nextId)
    requires k < |ipos|
    ensures RemoveId(ipos, ipos[k].id) == ipos[..k] + ipos[k + 1..]
  {
    var id := ipos[k].id;
    if k == 0 {
      assert forall x :: x in ipos[1..] ==> x.id != id;
    } else {
      assert ipos[0].id < id;
      RemoveOnlyThatRow(ipos[1..], nextId, k - 1);
      assert ipos[1..][..k - 1] == ipos[1..k];
      assert ipos[1..][k - 1 + 1..] == ipos[k + 1..];
      assert [ipos[0]] + ipos[1..k] == ipos[..k];
    }
  }

  /**
   * A delete either matches no row and keeps the table, or matches exactly
   * one row and removes only it; either way the table stays well formed.
   */
  lemma DeleteCases(ipos: seq<Ipo>, nextId: nat, id: int)
    requires WellFormed(ipos, nextId)
    ensures WellFormed(RemoveId(ipos, id), nextId)
    ensures |RemoveId(ipos, id)| == |ipos| <==> forall x :: x in ipos ==> x.id != id
    ensures |RemoveId(ipos, id)| != |ipos| ==>
      exists k :: 0 <= k < |ipos| && ipos[k].id == id && RemoveId(ipos, id) == ipos[..k] + ipos[k + 1..]
  {
    if k :| 0 <= k < |ipos| && ipos[k].id == id {
      RemoveOnlyThatRow(ipos, nextId, k);
      DropKeepsWellFormed(ipos, nextId, k);
      assert ipos[k] in ipos;
    }
  }

  lemma DropKeepsWellFormed(ipos: seq<Ipo>, nextId: nat, k: nat)
    requires WellFormed(ipos, nextId)
    requires k < |ipos|
    ensures WellFormed(ipos[..k] + ipos[k + 1..], nextId)
  {
  }

  /** Registering a row under the next id keeps the table well formed. */
  lemma AppendKeepsWellFormed(ipos: seq<Ipo>, nextId: nat, fields: IpoRequest)
    requires WellFormed(ipos, nextId)
    ensures WellFormed(ipos + [Ipo(nextId, fields)], nextId + 1)
  {
  }

  predicate IsGain(x: Ipo) {
    x.fields.listingGain.Some? && x.fields.listingGain.value > 0
  }

  predicate IsLoss(x: Ipo) {
    x.fields.listingGain.Some? && x.fields.listingGain.value < 0
  }

  /** `COUNT(*) ... WHERE listing_gain > 0`; a NULL gain fails the comparison. */
  function CountGain(ipos: seq<Ipo>): nat {
    if ipos == [] then 0 else (if IsGain(ipos[0]) then 1 else 0) + CountGain(ipos[1..])
  }

  /** `COUNT(*) ... WHERE listing_gain < 0` */
  function CountLoss(ipos: seq<Ipo>): nat {
    if ipos == [] then 0 else (if IsLoss(ipos[0]) then 1 else 0) + CountLoss(ipos[1..])
  }

  /** Rows that are neither: a zero or NULL listing gain. */
  function CountFlat(ipos: seq<Ipo>): nat {
    if ipos == [] then 0 else (if !IsGain(ipos[0]) && !IsLoss(ipos[0]) then 1 else 0) + CountFlat(ipos[1..])
  }

  /** Every row is counted as exactly one of gain, loss or flat, so gain + loss never exceeds the total. */
  lemma {:induction false} StatsPartition(ipos: seq<Ipo>)
    ensures CountGain(ipos) + CountLoss(ipos) + CountFlat(ipos) == |ipos|
    ensures CountGain(ipos) + CountLoss(ipos) <= |ipos|
  {
    if ipos != [] {
      StatsPartition(ipos[1..]);
    }
  }

  /** Registering one more row moves each count by that row's own contribution. */
  lemma {:induction false} CountsAppend(ipos: seq<Ipo>, x: Ipo)
    ensures CountGain(ipos + [x]) == CountGain(ipos) + (if IsGain(x) then 1 else 0)
    ensures CountLoss(ipos + [x]) == CountLoss(ipos) + (if IsLoss(x) then 1 else 0)
  {
    if ipos != [] {
      assert (ipos + [x])[1..] == ipos[1..] + [x];
      CountsAppend(ipos[1..], x);
    } else {
      assert [x][1..] == [];
    }
  }

  /** Deleting rows never raises a count. */
  lemma {:induction false} CountsRemove(ipos: seq<Ipo>, id: int)
    ensures CountGain(RemoveId(ipos, id)) <= CountGain(ipos)
    ensures CountLoss(RemoveId(ipos, id)) <= CountLoss(ipos)
  {
    if ipos != [] {
      CountsRemove(ipos[1..], id);
      var tail := RemoveId(ipos[1..], id);
      if ipos[0].id != id {
        assert ([ipos[0]] + tail)[1..] == tail;
      }
    }
  }
}
