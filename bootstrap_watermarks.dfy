/**
 * Seeding sync_watermarks from the data already stored: per branch, the newest
 * transaction-item timestamp under "transactions_csv"; globally, the newest client timestamp
 * under "clients_csv"/"ALL".
 */
module BootstrapWatermarks {
  import opened Wrappers
  import opened Clock
  import opened Records
  import opened Store
  import opened WatermarksRepo

  const TransactionsCsv: string := "transactions_csv"
  const ClientsCsv: string := "clients_csv"

  // ---- the two aggregate queries ----

  /**
   * `m` is the result of `SELECT branch_id, MAX(updated_at_phorest) ... WHERE updated_at_phorest
   * IS NOT NULL GROUP BY branch_id` over the items `ids`: one entry per branch that has a
   * stamped item, holding the largest stamp.
   */
  ghost predicate IsGroupMax(items: map<string, ItemRow>, ids: set<string>, m: map<string, Time>) {
    ids <= items.Keys &&
    (forall id :: id in ids && items[id].item.updatedAtPhorest.Some? ==>
      items[id].item.sale.branchId in m && items[id].item.updatedAtPhorest.value <= m[items[id].item.sale.branchId]) &&
    (forall b :: b in m ==> exists id :: id in ids && items[id].item.sale.branchId == b && items[id].item.updatedAtPhorest == Some(m[b]))
  }

  /** The grouped maxima are determined by the items, whatever order the server scans them in. */
  lemma GroupMaxUnique(items: map<string, ItemRow>, ids: set<string>, m1: map<string, Time>, m2: map<string, Time>)
    requires IsGroupMax(items, ids, m1) && IsGroupMax(items, ids, m2)
    ensures m1 == m2
  {
    forall b | b in m1 ensures b in m2 && m1[b] == m2[b] {
      var id :| id in ids && items[id].item.sale.branchId == b && items[id].item.updatedAtPhorest == Some(m1[b]);
      var id2 :| id2 in ids && items[id2].item.sale.branchId == b && items[id2].item.updatedAtPhorest == Some(m2[b]);
    }
    forall b | b in m2 ensures b in m1 {
      var id :| id in ids && items[id].item.sale.branchId == b && items[id].item.updatedAtPhorest == Some(m2[b]);
    }
  }

  /** The grouped maxima, computed one item at a time in an arbitrary order. */
  ghost function GroupMax(items: map<string, ItemRow>, ids: set<string>): map<string, Time>
    requires ids <= items.Keys
    decreases ids
  {
    if ids == {} then map[]
    else
      var id :| id in ids;
      var rest := GroupMax(items, ids - {id});
      var it := items[id].item;
      if it.updatedAtPhorest.None? then rest
      else if it.sale.branchId in rest && rest[it.sale.branchId] >= it.updatedAtPhorest.value then rest
      else rest[it.sale.branchId := it.updatedAtPhorest.value]
  }

  /** GroupMax is what the grouped query returns. */
  lemma {:induction false} GroupMaxIsGroupMax(items: map<string, ItemRow>, ids: set<string>)
    requires ids <= items.Keys
    ensures IsGroupMax(items, ids, GroupMax(items, ids))
    decreases ids
  {
    if ids != {} {
      var id :| id in ids && GroupMax(items, ids) == (
        var rest := GroupMax(items, ids - {id});
        var it := items[id].item;
        if it.updatedAtPhorest.None? then rest
        else if it.sale.branchId in rest && rest[it.sale.branchId] >= it.updatedAtPhorest.value then rest
        else rest[it.sale.branchId := it.updatedAtPhorest.value]);
      GroupMaxIsGroupMax(items, ids - {id});
      var rest := GroupMax(items, ids - {id});
      var m := GroupMax(items, ids);
      forall b | b in m
        ensures exists j :: j in ids && items[j].item.sale.branchId == b && items[j].item.updatedAtPhorest == Some(m[b])
      {
        if b in rest && m[b] == rest[b] {
          var j :| j in ids - {id} && items[j].item.sale.branchId == b && items[j].item.updatedAtPhorest == Some(rest[b]);
        } else {
          assert items[id].item.sale.branchId == b && items[id].item.updatedAtPhorest == Some(m[b]);
        }
      }
    }
  }

  /** `r` is `SELECT MAX(updated_at_phorest) FROM clients WHERE updated_at_phorest IS NOT NULL`. */
  ghost predicate IsOverallMax(clients: map<string, ClientRow>, ids: set<string>, r: Option<Time>) {
    ids <= clients.Keys &&
    (forall id :: id in ids && clients[id].client.updatedAtPhorest.Some? ==>
      r.Some? && clients[id].client.updatedAtPhorest.value <= r.value) &&
    (r.Some? ==> exists id :: id in ids && clients[id].client.updatedAtPhorest == r)
  }

  /** The clients' largest timestamp, one client at a time in an arbitrary order. */
  ghost function OverallMax(clients: map<string, ClientRow>, ids: set<string>): Option<Time>
    requires ids <= clients.Keys
    decreases ids
  {
    if ids == {} then None
    else
      var id :| id in ids;
      Greatest(OverallMax(clients, ids - {id}), clients[id].client.updatedAtPhorest)
  }

  /** OverallMax is what the maximum query returns. */
  lemma {:induction false} OverallMaxIsOverallMax(clients: map<string, ClientRow>, ids: set<string>)
    requires ids <= clients.Keys
    ensures IsOverallMax(clients, ids, OverallMax(clients, ids))
    decreases ids
  {
    if ids != {} {
      var id :| id in ids && OverallMax(clients, ids) == Greatest(OverallMax(clients, ids - {id}), clients[id].client.updatedAtPhorest);
      OverallMaxIsOverallMax(clients, ids - {id});
      var r := OverallMax(clients, ids);
      var rest := OverallMax(clients, ids - {id});
      var s := clients[id].client.updatedAtPhorest;
      assert r == Greatest(rest, s);
      forall j | j in ids && clients[j].client.updatedAtPhorest.Some?
        ensures r.Some? && clients[j].client.updatedAtPhorest.value <= r.value
      {
        if j != id {
          assert j in ids - {id};
        }
      }
      if r.Some? && r != s {
        assert r == rest;
        var j :| j in ids - {id} && clients[j].client.updatedAtPhorest == rest;
        assert j in ids;
      }
    }
  }

  /** The overall maximum is determined by the clients. */
  lemma OverallMaxUnique(clients: map<string, ClientRow>, ids: set<string>, r1: Option<Time>, r2: Option<Time>)
    requires IsOverallMax(clients, ids, r1) && IsOverallMax(clients, ids, r2)
    ensures r1 == r2
  {
    if r1.Some? {
      var j :| j in ids && clients[j].client.updatedAtPhorest == r1;
    }
    if r2.Some? {
      var j :| j in ids && clients[j].client.updatedAtPhorest == r2;
    }
  }

  /** The grouped-maximum query: one round trip. */
  method QueryItemMaxima(db: Db) returns (r: Result<map<string, Time>>)
    modifies db`round
    ensures db.round == old(db.round) + 1 && (r.Err? <==> old(db.round) in db.faulty)
    ensures r.Ok? ==> r.value == GroupMax(db.items, db.items.Keys)
  {
    var ok := db.RoundTrip();
    if !ok {
      return Err(ConnectionFault);
    }
    var m: map<string, Time> := map[];
    var todo := db.items.Keys;
    while todo != {}
      invariant todo <= db.items.Keys
      invariant IsGroupMax(db.items, db.items.Keys - todo, m)
      decreases todo
    {
      var id :| id in todo;
      var it := db.items[id].item;
      if it.updatedAtPhorest.Some? {
        var b := it.sale.branchId;
        var t := it.updatedAtPhorest.value;
        if b !in m || m[b] < t {
          m := m[b := t];
        }
      }
      todo := todo - {id};
    }
    GroupMaxIsGroupMax(db.items, db.items.Keys);
    GroupMaxUnique(db.items, db.items.Keys, m, GroupMax(db.items, db.items.Keys));
    return Ok(m);
  }

  /** The overall-maximum query: one round trip. */
  method QueryClientsMax(db: Db) returns (r: Result<Option<Time>>)
    modifies db`round
    ensures db.round == old(db.round) + 1 && (r.Err? <==> old(db.round) in db.faulty)
    ensures r.Ok? ==> r.value == OverallMax(db.clients, db.clients.Keys)
  {
    var ok := db.RoundTrip();
    if !ok {
      return Err(ConnectionFault);
    }
    var mx: Option<Time> := None;
    var todo := db.clients.Keys;
    while todo != {}
      invariant todo <= db.clients.Keys
      invariant IsOverallMax(db.clients, db.clients.Keys - todo, mx)
      decreases todo
    {
      var id :| id in todo;
      var s := db.clients[id].client.updatedAtPhorest;
      if s.Some? && (mx.None? || mx.value < s.value) {
        mx := s;
      }
      todo := todo - {id};
    }
    OverallMaxIsOverallMax(db.clients, db.clients.Keys);
    OverallMaxUnique(db.clients, db.clients.Keys, mx, OverallMax(db.clients, db.clients.Keys));
    return Ok(mx);
  }

  // ---- seeding ----

  /** The seed branch `b` contributes, if it is among `done` and its maximum is not zero. */
  function SeedOf(m: map<string, Time>, done: set<string>, b: string): Option<Time> {
    if b in done && b in m && !IsZero(m[b]) then Some(m[b]) else None
  }

  /**
   * The largest seed aimed at row k. Only k's own branch and, for the "ALL" row, the empty
   * branch normalise onto k.
   */
  function SeedFor(entity: string, m: map<string, Time>, done: set<string>, k: WatermarkKey): Option<Time> {
    if k.entity != entity || k.branchId == "" then None
    else Greatest(SeedOf(m, done, k.branchId), if k.branchId == All then SeedOf(m, done, "") else None)
  }

  /** The rows that the seeds of the branches in `done` address (zero seeds write nothing). */
  function SeedKeys(entity: string, m: map<string, Time>, done: set<string>): set<WatermarkKey> {
    set b | b in done && b in m && !IsZero(m[b]) :: Key(entity, b)
  }

  /** `w` after GREATEST-advancing `entity`/b to m[b] for every b in `done`. */
  function Seeded(w: Watermarks, entity: string, m: map<string, Time>, done: set<string>): Watermarks {
    map k | k in w.Keys + SeedKeys(entity, m, done) :: Greatest(Lookup(w, k), SeedFor(entity, m, done, k))
  }

  /** The branches that normalise onto a row are the row's own branch and, for "ALL", "". */
  lemma KeyInverse(entity: string, b: string, k: WatermarkKey)
    ensures Key(entity, b) == k <==> k.entity == entity && k.branchId != "" && (b == k.branchId || (b == "" && k.branchId == All))
  {
  }

  /** A row is addressed by some seed exactly when a seed is aimed at it. */
  lemma SeedKeysExact(entity: string, m: map<string, Time>, done: set<string>, k: WatermarkKey)
    ensures k in SeedKeys(entity, m, done) <==> SeedFor(entity, m, done, k).Some?
  {
    if SeedFor(entity, m, done, k).Some? {
      if SeedOf(m, done, k.branchId).Some? {
        KeyInverse(entity, k.branchId, k);
      } else {
        KeyInverse(entity, "", k);
      }
    }
    if k in SeedKeys(entity, m, done) {
      var b :| b in done && b in m && !IsZero(m[b]) && Key(entity, b) == k;
      KeyInverse(entity, b, k);
    }
  }

  /**
   * What a seeding means: rows no seed addresses are untouched; every seeded row is at least
   * its old value and each seed aimed at it, and is one of those values.
   */
  lemma SeededMeaning(w: Watermarks, entity: string, m: map<string, Time>, done: set<string>, k: WatermarkKey, b: string)
    ensures var w2 := Seeded(w, entity, m, done);
      (SeedFor(entity, m, done, k).None? ==> (k in w2 <==> k in w) && Lookup(w2, k) == Lookup(w, k)) &&
      (b in done && b in m && !IsZero(m[b]) ==>
        AtLeast(Lookup(w2, Key(entity, b)), Some(m[b])) && AtLeast(Lookup(w2, Key(entity, b)), Lookup(w, Key(entity, b)))) &&
      (k in w2 ==> Lookup(w2, k) == Lookup(w, k) || exists c :: SeedOf(m, done, c) == Lookup(w2, k) && Key(entity, c) == k)
  {
    SeedKeysExact(entity, m, done, k);
    var kb := Key(entity, b);
    SeedKeysExact(entity, m, done, kb);
    if b in done && b in m && !IsZero(m[b]) {
      KeyInverse(entity, b, kb);
      assert SeedFor(entity, m, done, kb).Some?;
    }
    var w2 := Seeded(w, entity, m, done);
    if k in w2 && Lookup(w2, k) != Lookup(w, k) {
      assert Lookup(w2, k) == SeedFor(entity, m, done, k);
      if Lookup(w2, k) == SeedOf(m, done, k.branchId) {
        KeyInverse(entity, k.branchId, k);
      } else {
        KeyInverse(entity, "", k);
      }
    }
  }

  /** Seeding from nothing is the identity. */
  lemma SeededFromNothing(w: Watermarks, entity: string, m: map<string, Time>)
    ensures Seeded(w, entity, m, {}) == w
  {
    assert SeedKeys(entity, m, {}) == {};
  }

  /** Adding branch b to `done` adds its seed to the seeds aimed at b's row, and to no other. */
  lemma SeedForStep(entity: string, m: map<string, Time>, done: set<string>, b: string, k: WatermarkKey)
    requires b in m && b !in done
    ensures SeedFor(entity, m, done + {b}, k) ==
      if k == Key(entity, b) && !IsZero(m[b]) then Greatest(SeedFor(entity, m, done, k), Some(m[b]))
      else SeedFor(entity, m, done, k)
  {
    KeyInverse(entity, b, k);
    if k.entity == entity && k.branchId != "" {
      var x := SeedOf(m, done, k.branchId);
      var y := if k.branchId == All then SeedOf(m, done, "") else None;
      if k == Key(entity, b) && !IsZero(m[b]) {
        if b == k.branchId {
          assert x == None;
          GreatestLaws(x, y, Some(m[b]));
          GreatestLaws(Some(m[b]), y, None);
        } else {
          assert y == None;
          GreatestLaws(x, y, Some(m[b]));
        }
      }
    }
  }

  /** One more seed write extends a seeding, whatever order the branches come in. */
  lemma SeededStep(w: Watermarks, entity: string, m: map<string, Time>, done: set<string>, b: string)
    requires b in m && b !in done
    ensures Seeded(w, entity, m, done + {b}) == Advanced(Seeded(w, entity, m, done), Key(entity, b), m[b])
  {
    var w1 := Seeded(w, entity, m, done);
    var w2 := Seeded(w, entity, m, done + {b});
    var w3 := Advanced(w1, Key(entity, b), m[b]);
    forall k ensures (k in w2 <==> k in w3) && (k in w2 ==> w2[k] == w3[k]) {
      SeedKeysExact(entity, m, done, k);
      SeedKeysExact(entity, m, done + {b}, k);
      SeedForStep(entity, m, done, b, k);
      if k == Key(entity, b) && !IsZero(m[b]) {
        GreatestLaws(Lookup(w, k), SeedFor(entity, m, done, k), Some(m[b]));
      }
    }
    assert w2 == w3;
  }

  /** Seeding with the same seeds a second time writes nothing. */
  lemma SeededIdempotent(w: Watermarks, entity: string, m: map<string, Time>, done: set<string>)
    ensures Seeded(Seeded(w, entity, m, done), entity, m, done) == Seeded(w, entity, m, done)
  {
    var w1 := Seeded(w, entity, m, done);
    forall k | k in w1 ensures Greatest(Lookup(w1, k), SeedFor(entity, m, done, k)) == w1[k] {
      GreatestLaws(Lookup(w, k), SeedFor(entity, m, done, k), SeedFor(entity, m, done, k));
    }
  }

  /** Seeding a stream leaves the rows of every other stream as they were. */
  lemma SeededOtherStream(w: Watermarks, entity: string, m: map<string, Time>, done: set<string>, k: WatermarkKey)
    requires k.entity != entity
    ensures (k in Seeded(w, entity, m, done) <==> k in w) && Lookup(Seeded(w, entity, m, done), k) == Lookup(w, k)
  {
    SeedKeysExact(entity, m, done, k);
  }

  /** upsertWatermark: a zero time writes nothing; a nil or empty branch is the "ALL" row. */
  method UpsertWatermark(db: Db, entity: string, branchId: Option<string>, t: Time) returns (err: Outcome)
    modifies db`watermarks, db`round
    ensures IsZero(t) ==> err.Pass? && db.round == old(db.round) && db.watermarks == old(db.watermarks)
    ensures !IsZero(t) ==> db.round == old(db.round) + 1 && (err.Fail? <==> old(db.round) in db.faulty)
    ensures db.watermarks == if err.Pass? then Advanced(old(db.watermarks), Key(entity, branchId.GetOr("")), t) else old(db.watermarks)
  {
    if IsZero(t) {
      return Pass;
    }
    var branch := if branchId.None? || branchId.value == "" then All else branchId.value;
    assert WatermarkKey(entity, branch) == Key(entity, branchId.GetOr(""));
    var ok := db.RoundTrip();
    if !ok {
      return Fail(ConnectionFault);
    }
    db.watermarks := Advanced(db.watermarks, WatermarkKey(entity, branch), t);
    return Pass;
  }

  /**
   * Where an interrupted seed loop leaves the watermarks: the seeds of the branches written
   * before the failure, and nothing else.
   */
  ghost predicate PartlySeeded(w: Watermarks, seeds: map<string, Time>, w2: Watermarks) {
    exists done :: done <= seeds.Keys && w2 == Seeded(w, TransactionsCsv, seeds, done)
  }

  /**
   * However many seeds were written, no row moved backwards or back to NULL, and the rows of
   * every other entity are as they were.
   */
  lemma SeededKeeps(w: Watermarks, entity: string, m: map<string, Time>, done: set<string>)
    ensures var w2 := Seeded(w, entity, m, done);
      (forall k :: AtLeast(Lookup(w2, k), Lookup(w, k))) &&
      (forall k: WatermarkKey :: k.entity != entity ==> (k in w2 <==> k in w) && Lookup(w2, k) == Lookup(w, k))
  {
    var w2 := Seeded(w, entity, m, done);
    forall k ensures AtLeast(Lookup(w2, k), Lookup(w, k)) {
      if k in w {
        assert k in w2 && w2[k] == Greatest(Lookup(w, k), SeedFor(entity, m, done, k));
      }
    }
    forall k: WatermarkKey | k.entity != entity ensures (k in w2 <==> k in w) && Lookup(w2, k) == Lookup(w, k) {
      SeededOtherStream(w, entity, m, done, k);
    }
  }

  /** The clients seed as a one-branch seeding of "ALL". */
  function ClientSeed(mx: Option<Time>): map<string, Time> {
    if mx.Some? then map[All := mx.value] else map[]
  }

  /** The seed-write loop over the grouped maxima, in whatever order the rows come back. */
  method SeedBranches(db: Db, m: map<string, Time>) returns (err: Outcome)
    modifies db`watermarks, db`round
    ensures err.Pass? <==> Clean(db.faulty, old(db.round), db.round)
    ensures err.Fail? ==> old(db.round) < db.round && db.round - 1 in db.faulty
    ensures old(db.round) <= db.round
    ensures err.Pass? ==> db.watermarks == Seeded(old(db.watermarks), TransactionsCsv, m, m.Keys)
    ensures err.Fail? ==> PartlySeeded(old(db.watermarks), m, db.watermarks)
  {
    var todo := m.Keys;
    SeededFromNothing(db.watermarks, TransactionsCsv, m);
    while todo != {}
      invariant todo <= m.Keys
      invariant old(db.round) <= db.round && Clean(db.faulty, old(db.round), db.round)
      invariant db.watermarks == Seeded(old(db.watermarks), TransactionsCsv, m, m.Keys - todo)
      decreases todo
    {
      var b :| b in todo;
      var e := UpsertWatermark(db, TransactionsCsv, Some(b), m[b]);
      if e.Fail? {
        assert db.watermarks == Seeded(old(db.watermarks), TransactionsCsv, m, m.Keys - todo);
        return e;
      }
      SeededStep(old(db.watermarks), TransactionsCsv, m, m.Keys - todo, b);
      assert m.Keys - todo + {b} == m.Keys - (todo - {b});
      todo := todo - {b};
    }
    assert m.Keys - todo == m.Keys;
    return Pass;
  }

  /** The clients seed write: only when some client has a timestamp. */
  method SeedClients(db: Db, cm: Option<Time>) returns (err: Outcome)
    modifies db`watermarks, db`round
    ensures err.Pass? <==> Clean(db.faulty, old(db.round), db.round)
    ensures err.Fail? ==> old(db.round) < db.round && db.round - 1 in db.faulty
    ensures old(db.round) <= db.round
    ensures cm.None? ==> db.round == old(db.round) && db.watermarks == old(db.watermarks)
    ensures err.Pass? ==> db.watermarks == Seeded(old(db.watermarks), ClientsCsv, ClientSeed(cm), ClientSeed(cm).Keys)
    ensures err.Fail? ==> db.watermarks == old(db.watermarks)
  {
    SeededFromNothing(db.watermarks, ClientsCsv, ClientSeed(cm));
    if cm.None? {
      assert ClientSeed(cm).Keys == {};
      return Pass;
    }
    var start := db.watermarks;
    err := UpsertWatermark(db, ClientsCsv, Some(All), cm.value);
    if err.Pass? {
      SeededStep(start, ClientsCsv, ClientSeed(cm), {}, All);
      assert {} + {All} == ClientSeed(cm).Keys;
    }
  }

  /**
   * BootstrapWatermarks. The grouped query, one seed write per branch, the clients query and
   * its seed write; the first failing round trip ends the call with its error.
   */
  method Bootstrap(db: Db) returns (err: Outcome)
    modifies db`watermarks, db`round
    ensures err.Pass? <==> Clean(db.faulty, old(db.round), db.round)
    ensures err.Fail? ==> old(db.round) < db.round && db.round - 1 in db.faulty
    ensures err.Pass? ==>
      db.watermarks == BootstrapResult(old(db.watermarks), GroupMax(db.items, db.items.Keys), OverallMax(db.clients, db.clients.Keys))
    ensures err.Fail? ==> PartlySeeded(old(db.watermarks), GroupMax(db.items, db.items.Keys), db.watermarks)
  {
    var r0 := db.round;
    var q := QueryItemMaxima(db);
    if q.Err? {
      SeededFromNothing(db.watermarks, TransactionsCsv, GroupMax(db.items, db.items.Keys));
      return Fail(q.msg);
    }
    var m := q.value;
    var r1 := db.round;
    var w0 := db.watermarks;
    err := SeedBranches(db, m);
    if err.Fail? {
      return;
    }
    var r2 := db.round;
    CleanJoin(db.faulty, r0, r1, r2);
    var c := QueryClientsMax(db);
    if c.Err? {
      assert db.watermarks == Seeded(w0, TransactionsCsv, m, m.Keys);
      return Fail(c.msg);
    }
    var cm := c.value;
    CleanJoin(db.faulty, r0, r2, r2 + 1);
    var w1 := db.watermarks;
    err := SeedClients(db, cm);
    if err.Pass? {
      CleanJoin(db.faulty, r0, r2 + 1, db.round);
    } else {
      assert db.watermarks == Seeded(w0, TransactionsCsv, m, m.Keys);
    }
  }

  /** Where a successful bootstrap leaves the watermarks: the item seeds, then the clients seed. */
  function BootstrapResult(w: Watermarks, seeds: map<string, Time>, clientsMax: Option<Time>): Watermarks {
    var mid := Seeded(w, TransactionsCsv, seeds, seeds.Keys);
    Seeded(mid, ClientsCsv, ClientSeed(clientsMax), ClientSeed(clientsMax).Keys)
  }

  /**
   * Running the bootstrap again on the data it seeded from leaves the watermarks as they are;
   * together with GroupMaxUnique, the second run finds the same seeds.
   */
  lemma BootstrapTwice(w: Watermarks, seeds: map<string, Time>, clientsMax: Option<Time>)
    ensures BootstrapResult(BootstrapResult(w, seeds, clientsMax), seeds, clientsMax) == BootstrapResult(w, seeds, clientsMax)
  {
    var cs := ClientSeed(clientsMax);
    var w1 := BootstrapResult(w, seeds, clientsMax);
    var mid1 := Seeded(w, TransactionsCsv, seeds, seeds.Keys);
    var mid2 := Seeded(w1, TransactionsCsv, seeds, seeds.Keys);
    // the clients seed touches only clients_csv rows, so the item seeds meet what they left
    forall k ensures (k in mid2 <==> k in w1) && (k in mid2 ==> mid2[k] == w1[k]) {
      SeedKeysExact(TransactionsCsv, seeds, seeds.Keys, k);
      SeedKeysExact(ClientsCsv, cs, cs.Keys, k);
      if k.entity == TransactionsCsv {
        SeededOtherStream(mid1, ClientsCsv, cs, cs.Keys, k);
        assert Lookup(w1, k) == Lookup(mid1, k);
        SeededIdempotent(w, TransactionsCsv, seeds, seeds.Keys);
        if k in mid2 {
          assert Lookup(mid2, k) == Greatest(Lookup(w1, k), SeedFor(TransactionsCsv, seeds, seeds.Keys, k));
          assert Lookup(Seeded(mid1, TransactionsCsv, seeds, seeds.Keys), k) == Lookup(mid1, k);
        }
      }
    }
    assert mid2 == w1;
    SeededIdempotent(mid1, ClientsCsv, cs, cs.Keys);
  }
}
