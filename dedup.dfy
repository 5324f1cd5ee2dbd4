/**
 * The within-file de-duplication of the CSV readers (transaction headers by transaction_id,
 * clients by client_id): rows are offered in file order to a map keyed by id, and a later
 * row replaces the kept one exactly when it Supersedes it. The map is then read out in Go's
 * unspecified map order.
 */
module Dedup {
  import opened Wrappers
  import opened Clock
  import opened Records

  /** A row offered to the map: its id, its upstream timestamp and the record itself. */
  datatype Keyed<T> = Keyed(id: string, stamp: Option<Time>, value: T)

  /** The by-id map after the first n rows. */
  function KeptUpTo<T>(rows: seq<Keyed<T>>, n: nat): map<string, Keyed<T>>
    requires n <= |rows|
  {
    if n == 0 then map[]
    else
      var m := KeptUpTo(rows, n - 1);
      var x := rows[n - 1];
      if x.id in m && !Supersedes(m[x.id].stamp, x.stamp) then m else m[x.id := x]
  }

  /** The by-id map once every row has been offered. */
  function Kept<T>(rows: seq<Keyed<T>>): map<string, Keyed<T>> {
    KeptUpTo(rows, |rows|)
  }

  /** s is no newer than t, with nil older than every instant. */
  predicate NoNewer(s: Option<Time>, t: Option<Time>) {
    s.None? || (t.Some? && s.value <= t.value)
  }

  /**
   * Row j is the first of the newest rows with id k among the first n: every earlier row with
   * that id is superseded by it, and no later one is newer.
   */
  ghost predicate ChosenUpTo<T>(rows: seq<Keyed<T>>, n: nat, k: string, j: nat)
    requires n <= |rows|
  {
    j < n && rows[j].id == k &&
    (forall i :: 0 <= i < j && rows[i].id == k ==> Supersedes(rows[i].stamp, rows[j].stamp)) &&
    (forall i :: j < i < n && rows[i].id == k ==> NoNewer(rows[i].stamp, rows[j].stamp))
  }

  ghost predicate Chosen<T>(rows: seq<Keyed<T>>, k: string, j: nat) {
    ChosenUpTo(rows, |rows|, k, j)
  }

  /** The ids of the first n rows. */
  ghost function IdsUpTo<T>(rows: seq<Keyed<T>>, n: nat): set<string>
    requires n <= |rows|
  {
    set i | 0 <= i < n :: rows[i].id
  }

  /** The map after n rows holds one entry per id seen. */
  lemma {:induction false} KeptUpToKeys<T>(rows: seq<Keyed<T>>, n: nat)
    requires n <= |rows|
    ensures KeptUpTo(rows, n).Keys == IdsUpTo(rows, n)
  {
    if n > 0 {
      KeptUpToKeys(rows, n - 1);
      assert IdsUpTo(rows, n) == IdsUpTo(rows, n - 1) + {rows[n - 1].id};
    }
  }

  /** The entry the map holds for k after n rows is the chosen row for k, which j names. */
  lemma {:induction false} KeptUpToChosen<T>(rows: seq<Keyed<T>>, n: nat, k: string) returns (j: nat)
    requires n <= |rows| && k in KeptUpTo(rows, n)
    ensures ChosenUpTo(rows, n, k, j) && KeptUpTo(rows, n)[k] == rows[j]
  {
    assert n > 0;
    var m := KeptUpTo(rows, n - 1);
    var x := rows[n - 1];
    if k != x.id || (k in m && !Supersedes(m[k].stamp, x.stamp)) {
      j := KeptUpToChosen(rows, n - 1, k);
    } else if k in m {
      var c := KeptUpToChosen(rows, n - 1, k);
      SupersedesChosen(rows, n, k, c);
      j := n - 1;
    } else {
      KeptUpToKeys(rows, n - 1);
      forall i | 0 <= i < n - 1
        ensures rows[i].id != k
      {
        assert rows[i].id in IdsUpTo(rows, n - 1);
      }
      j := n - 1;
    }
  }

  /** A row that supersedes the chosen row of the rows before it supersedes every one of them. */
  lemma SupersedesChosen<T>(rows: seq<Keyed<T>>, n: nat, k: string, j: nat)
    requires 0 < n <= |rows| && rows[n - 1].id == k
    requires ChosenUpTo(rows, n - 1, k, j) && Supersedes(rows[j].stamp, rows[n - 1].stamp)
    ensures forall i :: 0 <= i < n - 1 && rows[i].id == k ==> Supersedes(rows[i].stamp, rows[n - 1].stamp)
  {
    forall i | 0 <= i < n - 1 && rows[i].id == k
      ensures Supersedes(rows[i].stamp, rows[n - 1].stamp)
    {
      if i < j {
        assert Supersedes(rows[i].stamp, rows[j].stamp);
      } else if i > j {
        assert NoNewer(rows[i].stamp, rows[j].stamp);
      }
    }
  }

  /** At most one row is chosen per id: the characterisation fixes the kept row. */
  lemma ChosenUnique<T>(rows: seq<Keyed<T>>, n: nat, k: string, j1: nat, j2: nat)
    requires n <= |rows| && ChosenUpTo(rows, n, k, j1) && ChosenUpTo(rows, n, k, j2)
    ensures j1 == j2
  {
    if j1 != j2 {
      assert false;
    }
  }

  /**
   * The full-file statement: the map's ids are exactly the rows' ids, and the row kept under
   * an id is the unique chosen one.
   */
  lemma KeptIsChosen<T>(rows: seq<Keyed<T>>, k: string, j: nat)
    requires j < |rows| && rows[j].id == k
    ensures k in Kept(rows)
    ensures Kept(rows)[k] == rows[j] <== Chosen(rows, k, j)
    ensures exists c: nat :: Chosen(rows, k, c) && Kept(rows)[k] == rows[c]
  {
    KeptUpToKeys(rows, |rows|);
    assert k in IdsUpTo(rows, |rows|);
    var c := KeptUpToChosen(rows, |rows|, k);
    if Chosen(rows, k, j) {
      ChosenUnique(rows, |rows|, k, j, c);
    }
  }

  lemma KeptKeys<T>(rows: seq<Keyed<T>>)
    ensures Kept(rows).Keys == IdsUpTo(rows, |rows|)
  {
    KeptUpToKeys(rows, |rows|);
  }

  /**
   * The kept timestamp is the newest of the id's timestamps, and nil only when every one of
   * them is nil.
   */
  lemma ChosenIsNewest<T>(rows: seq<Keyed<T>>, k: string, j: nat)
    requires Chosen(rows, k, j)
    ensures forall i :: 0 <= i < |rows| && rows[i].id == k ==> NoNewer(rows[i].stamp, rows[j].stamp)
    ensures rows[j].stamp.None? <==> forall i :: 0 <= i < |rows| && rows[i].id == k ==> rows[i].stamp.None?
  {
    forall i | 0 <= i < |rows| && rows[i].id == k
      ensures NoNewer(rows[i].stamp, rows[j].stamp)
    {
      if i < j {
        assert Supersedes(rows[i].stamp, rows[j].stamp);
      }
    }
  }

  /** Of two rows with one id and one timestamp, the later is never the kept one. */
  lemma TieKeepsFirst<T>(rows: seq<Keyed<T>>, k: string, i: nat, j: nat)
    requires i < j < |rows| && rows[i].id == k && rows[j].id == k && rows[i].stamp == rows[j].stamp
    ensures !Chosen(rows, k, j)
  {
    if Chosen(rows, k, j) {
      assert false;
    }
  }

  /** The map built in the row loop grows by one step per offered row. */
  lemma KeptUpToAppend<T>(rows: seq<Keyed<T>>, x: Keyed<T>, n: nat)
    requires n <= |rows|
    ensures KeptUpTo(rows + [x], n) == KeptUpTo(rows, n)
  {
    if n > 0 {
      KeptUpToAppend(rows, x, n - 1);
    }
  }

  /** One row of the loop: the switch of the readers applied to the map so far. */
  function Offer<T>(m: map<string, Keyed<T>>, x: Keyed<T>): (r: map<string, Keyed<T>>)
    ensures r.Keys == m.Keys + {x.id}
    ensures x.id !in m ==> r[x.id] == x
    ensures x.id in m ==> r[x.id] == (if Supersedes(m[x.id].stamp, x.stamp) then x else m[x.id])
    ensures forall k :: k in m && k != x.id ==> r[k] == m[k]
  {
    if x.id in m && !Supersedes(m[x.id].stamp, x.stamp) then m else m[x.id := x]
  }

  lemma KeptSnoc<T>(rows: seq<Keyed<T>>, x: Keyed<T>)
    ensures Kept(rows + [x]) == Offer(Kept(rows), x)
  {
    KeptUpToAppend(rows, x, |rows|);
  }

  /**
   * `for _, v := range byID { out = append(out, v) }`: every kept record once, in some order;
   * ids are the keys the records were read out under.
   */
  method Values<T>(m: map<string, Keyed<T>>) returns (out: seq<T>, ids: seq<string>)
    ensures |out| == |ids|
    ensures forall i :: 0 <= i < |ids| ==> ids[i] in m && out[i] == m[ids[i]].value
    ensures forall i, j :: 0 <= i < j < |ids| ==> ids[i] != ids[j]
    ensures forall k :: k in m ==> k in ids
  {
    out, ids := [], [];
    var rest := m.Keys;
    while rest != {}
      invariant rest <= m.Keys
      invariant forall i :: 0 <= i < |ids| ==> ids[i] in m && ids[i] !in rest
      invariant forall k :: k in m ==> k in rest || k in ids
      invariant |out| == |ids|
      invariant forall i :: 0 <= i < |ids| ==> out[i] == m[ids[i]].value
      invariant forall i, j :: 0 <= i < j < |ids| ==> ids[i] != ids[j]
      decreases |rest|
    {
      var k :| k in rest;
      out, ids := out + [m[k].value], ids + [k];
      rest := rest - {k};
    }
  }
}
