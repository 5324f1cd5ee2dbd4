/**
 * The sync_watermarks table: per (stream, branch), the newest upstream timestamp already
 * imported. "" names the global row "ALL". Advancing is GREATEST(stored, candidate).
 */
module WatermarksRepo {
  import opened Wrappers
  import opened Clock
  import opened Records
  import opened Store

  const All: string := "ALL"

  type Watermarks = map<WatermarkKey, Option<Time>>

  /** `a` is at least `b`, where NULL is below every timestamp. */
  predicate AtLeast(a: Option<Time>, b: Option<Time>) {
    b.None? || (a.Some? && a.value >= b.value)
  }

  /** The canonical branch of a watermark row: "" is the global row "ALL". */
  function NormaliseBranchId(branchId: string): (r: string)
    ensures r != ""
  {
    if branchId == "" then All else branchId
  }

  /** "" becomes "ALL", every other id is kept, and normalising twice is normalising once. */
  lemma NormaliseBranchIdProperties(branchId: string)
    ensures NormaliseBranchId("") == All
    ensures branchId != "" ==> NormaliseBranchId(branchId) == branchId
    ensures NormaliseBranchId(NormaliseBranchId(branchId)) == NormaliseBranchId(branchId)
    ensures NormaliseBranchId(branchId) == NormaliseBranchId(All) <==> branchId in {"", All}
  {
  }

  function Key(entity: string, branchId: string): WatermarkKey {
    WatermarkKey(entity, NormaliseBranchId(branchId))
  }

  /** The stored timestamp of a row, None when the row is missing or its value is NULL. */
  function Lookup(w: Watermarks, k: WatermarkKey): Option<Time> {
    if k in w then w[k] else None
  }

  /** The table after `INSERT ... ON CONFLICT DO UPDATE SET v = GREATEST(v, candidate)`; a zero candidate writes nothing. */
  function Advanced(w: Watermarks, k: WatermarkKey, candidate: Time): (r: Watermarks)
    ensures IsZero(candidate) ==> r == w
    ensures !IsZero(candidate) ==> r.Keys == w.Keys + {k} && r[k] == Greatest(Lookup(w, k), Some(candidate))
    ensures forall j :: j in w && j != k ==> j in r && r[j] == w[j]
  {
    if IsZero(candidate) then w else w[k := Greatest(Lookup(w, k), Some(candidate))]
  }

  /** An advance inserts the candidate for a missing row, replaces a NULL, and otherwise keeps the larger value. */
  lemma AdvancedValue(w: Watermarks, k: WatermarkKey, c: Time)
    requires !IsZero(c)
    ensures k !in w ==> Lookup(Advanced(w, k, c), k) == Some(c)
    ensures k in w && w[k].None? ==> Lookup(Advanced(w, k, c), k) == Some(c)
    ensures k in w && w[k].Some? ==> Lookup(Advanced(w, k, c), k) == Some(if w[k].value >= c then w[k].value else c)
  {
  }

  /** No row ever moves backward or back to NULL. */
  lemma AdvancedMonotone(w: Watermarks, k: WatermarkKey, c: Time, j: WatermarkKey)
    ensures Lookup(w, j).Some? ==> Lookup(Advanced(w, k, c), j).Some? && Lookup(Advanced(w, k, c), j).value >= Lookup(w, j).value
  {
  }

  /** Two advances commute: the order in which two syncs move the watermarks makes no difference. */
  lemma AdvancedCommutes(w: Watermarks, k1: WatermarkKey, c1: Time, k2: WatermarkKey, c2: Time)
    ensures Advanced(Advanced(w, k1, c1), k2, c2) == Advanced(Advanced(w, k2, c2), k1, c1)
  {
    if !IsZero(c1) && !IsZero(c2) && k1 == k2 {
      GreatestLaws(Lookup(w, k1), Some(c1), Some(c2));
      GreatestLaws(Lookup(w, k1), Some(c2), Some(c1));
    }
  }

  /** Repeating an advance is a no-op. */
  lemma AdvancedIdempotent(w: Watermarks, k: WatermarkKey, c: Time)
    ensures Advanced(Advanced(w, k, c), k, c) == Advanced(w, k, c)
  {
    if !IsZero(c) {
      GreatestLaws(Lookup(w, k), Some(c), Some(c));
    }
  }

  /** GetLastUpdated: one query; a missing row (or a NULL value) is no watermark and no error. */
  method GetLastUpdated(db: Db, entity: string, branchId: string) returns (r: Result<Option<Time>>)
    modifies db`round
    ensures db.round == old(db.round) + 1
    ensures r.Err? <==> old(db.round) in db.faulty
    ensures r.Err? ==> r.msg == ConnectionFault
    ensures r.Ok? ==> r.value == Lookup(db.watermarks, Key(entity, branchId))
  {
    var ok := db.RoundTrip();
    if !ok {
      return Err(ConnectionFault);
    }
    var k := Key(entity, branchId);
    if k !in db.watermarks {
      return Ok(None);
    }
    return Ok(db.watermarks[k]);
  }

  /** UpsertLastUpdated: a zero candidate sends nothing; otherwise one GREATEST upsert of the normalised row. */
  method UpsertLastUpdated(db: Db, entity: string, branchId: string, candidate: Time) returns (err: Outcome)
    modifies db`watermarks, db`round
    ensures IsZero(candidate) ==> err.Pass? && db.round == old(db.round) && db.watermarks == old(db.watermarks)
    ensures !IsZero(candidate) ==> db.round == old(db.round) + 1 && (err.Fail? <==> old(db.round) in db.faulty)
    ensures db.watermarks == if err.Pass? then Advanced(old(db.watermarks), Key(entity, branchId), candidate) else old(db.watermarks)
    ensures err.Fail? ==> err.msg == ConnectionFault
  {
    if IsZero(candidate) {
      return Pass;
    }
    var ok := db.RoundTrip();
    if !ok {
      return Fail(ConnectionFault);
    }
    db.watermarks := Advanced(db.watermarks, Key(entity, branchId), candidate);
    return Pass;
  }

  /** "" and "ALL" address the same row, for reads and for writes. */
  lemma EmptyAndAllShareARow(entity: string)
    ensures Key(entity, "") == Key(entity, All)
  {
  }
}
