/**
 Append-only JSONL logs and the two ways the platform reads them: the last row
 with a given id (platform_core/storage.py `find_by_id` and the single-id scans of
 the stores), and the listing that keeps the last row of every id.
 */
module Logs {
  import opened Ordering

  datatype Option<+T> = None | Some(value: T)

  /** The last row of the log that satisfies `p`. */
  function Last<R>(log: seq<R>, p: R -> bool): (r: Option<R>)
    ensures r.Some? ==> r.value in log && p(r.value)
    ensures r.None? ==> forall i :: 0 <= i < |log| ==> !p(log[i])
  {
    if log == [] then None
    else if p(log[|log| - 1]) then Some(log[|log| - 1])
    else
      assert log == log[..|log| - 1] + [log[|log| - 1]];
      Last(log[..|log| - 1], p)
  }

  /** The value is that of a matching row after which nothing matches. */
  lemma {:induction false} LastIsNewest<R>(log: seq<R>, p: R -> bool)
    ensures Last(log, p).Some? ==>
              exists k :: 0 <= k < |log| && log[k] == Last(log, p).value && p(log[k])
                     && forall j :: k < j < |log| ==> !p(log[j])
  {
    if log != [] && !p(log[|log| - 1]) { LastIsNewest(log[..|log| - 1], p); }
  }

  lemma LastSnoc<R>(log: seq<R>, row: R, p: R -> bool)
    ensures Last(log + [row], p) == if p(row) then Some(row) else Last(log, p)
  {
    assert (log + [row])[..|log|] == log;
  }

  /** Rows that do not match can be dropped from the scan. */
  lemma {:induction false} LastOfFilter<R(!new)>(log: seq<R>, p: R -> bool)
    ensures Last(log, p) == var f := Filter(log, p); if f == [] then None else Some(f[|f| - 1])
  {
    if log != [] {
      var rest, row := log[..|log| - 1], log[|log| - 1];
      LastOfFilter(rest, p);
      assert log == rest + [row];
      FilterSnoc(rest, row, p);
    }
  }

  /** The scan of the source: remember the latest match so far. */
  method FindLast<R>(log: seq<R>, p: R -> bool) returns (latest: Option<R>)
    ensures latest == Last(log, p)
  {
    latest := None;
    for i := 0 to |log|
      invariant latest == Last(log[..i], p)
    {
      assert log[..i + 1] == log[..i] + [log[i]];
      LastSnoc(log[..i], log[i], p);
      if p(log[i]) {
        latest := Some(log[i]);
      }
    }
    assert log[..|log|] == log;
  }

  function HasId<R>(id: R -> string, key: string): (p: R -> bool)
  {
    (row: R) => id(row) == key
  }

  /** The last row with the given id. */
  function Latest<R>(log: seq<R>, id: R -> string, key: string): (r: Option<R>)
    ensures r.Some? ==> r.value in log && id(r.value) == key
  {
    Last(log, HasId(id, key))
  }

  lemma FilterIdSnoc<R(!new)>(log: seq<R>, row: R, id: R -> string, key: string)
    ensures Filter(log + [row], HasId(id, key)) == Filter(log, HasId(id, key)) + (if id(row) == key then [row] else [])
  {
    FilterSnoc(log, row, HasId(id, key));
  }

  lemma LatestSnoc<R>(log: seq<R>, row: R, id: R -> string, key: string)
    ensures Latest(log + [row], id, key) == if id(row) == key then Some(row) else Latest(log, id, key)
  {
    LastSnoc(log, row, HasId(id, key));
  }

  /** The non-empty ids of a log in order of first appearance: the key order of the `latest` dictionary. */
  function Ids<R>(log: seq<R>, id: R -> string): (ids: seq<string>)
    ensures forall i, j :: 0 <= i < j < |ids| ==> ids[i] != ids[j]
    ensures forall k :: k in ids <==> k != "" && exists i :: 0 <= i < |log| && id(log[i]) == k
  {
    if log == [] then []
    else
      assert log == log[..|log| - 1] + [log[|log| - 1]];
      var before, k := Ids(log[..|log| - 1], id), id(log[|log| - 1]);
      if k == "" || k in before then before else before + [k]
  }

  lemma IdsSnoc<R>(log: seq<R>, row: R, id: R -> string)
    ensures Ids(log + [row], id)
            == var before := Ids(log, id); if id(row) == "" || id(row) in before then before else before + [id(row)]
  {
    assert (log + [row])[..|log|] == log;
  }

  /** The `latest` dictionary holds, for every non-empty id, what the single-id scan returns. */
  ghost predicate HoldsLatest<R>(latest: map<string, R>, log: seq<R>, id: R -> string)
  {
    && (forall k :: k in latest <==> k in Ids(log, id))
    && (forall k :: k in latest ==> Latest(log, id, k) == Some(latest[k]))
  }

  lemma HoldsLatestSnoc<R>(latest: map<string, R>, log: seq<R>, row: R, id: R -> string)
    requires HoldsLatest(latest, log, id)
    ensures HoldsLatest(if id(row) == "" then latest else latest[id(row) := row], log + [row], id)
  {
    forall k
      ensures k in Ids(log + [row], id) <==> k in Ids(log, id) || (k == id(row) && k != "")
      ensures Latest(log + [row], id, k) == if id(row) == k then Some(row) else Latest(log, id, k)
    {
      IdsMember(log, row, id, k);
      LatestSnoc(log, row, id, k);
    }
  }

  lemma IdsMember<R>(log: seq<R>, row: R, id: R -> string, k: string)
    ensures k in Ids(log + [row], id) <==> k in Ids(log, id) || (k == id(row) && k != "")
  {
    IdsSnoc(log, row, id);
  }

  /**
   The listing loop.  `order` is the insertion order of the dictionary's keys.  The result has
   exactly one entry per non-empty id, and entry `i` is what the single-id scan for its id returns.
   */
  method ListLatest<R>(log: seq<R>, id: R -> string) returns (order: seq<string>, out: seq<R>)
    ensures order == Ids(log, id)
    ensures |out| == |order|
    ensures forall i :: 0 <= i < |out| ==> Latest(log, id, order[i]) == Some(out[i])
  {
    var latest: map<string, R> := map[];
    order := [];
    for i := 0 to |log|
      invariant order == Ids(log[..i], id)
      invariant HoldsLatest(latest, log[..i], id)
    {
      var row := log[i];
      assert log[..i + 1] == log[..i] + [row];
      IdsSnoc(log[..i], row, id);
      HoldsLatestSnoc(latest, log[..i], row, id);
      if id(row) != "" {
        if id(row) !in latest { order := order + [id(row)]; }
        latest := latest[id(row) := row];
      }
    }
    assert log[..|log|] == log;
    out := seq(|order|, i requires 0 <= i < |order| && order[i] in latest => latest[order[i]]);
  }

  // ----- stores that merge each input with the current record of its id -----

  /**
   `merge` builds the row to append from the current record (if any) and the input, `record` reads a
   row back, and `update` says what that does to the record.
   */
  datatype MergeStore<!H, !R, !S> = MergeStore(
    inputId: H -> string,
    rowId: R -> string,
    record: R -> S,
    merge: (Option<S>, H) -> R,
    update: (Option<S>, H) -> S)

  ghost predicate WellBehaved<H(!new), R, S(!new)>(st: MergeStore<H, R, S>)
  {
    forall prev, h :: st.rowId(st.merge(prev, h)) == st.inputId(h) && st.record(st.merge(prev, h)) == st.update(prev, h)
  }

  function Current<H, R, S>(st: MergeStore<H, R, S>, log: seq<R>, id: string): (r: Option<S>)
  {
    var latest := Latest(log, st.rowId, id);
    if latest.Some? then Some(st.record(latest.value)) else None
  }

  /** An input without an id is refused. */
  function StoreStep<H, R, S>(st: MergeStore<H, R, S>, log: seq<R>, h: H): (next: seq<R>)
  {
    var id := st.inputId(h);
    if id == "" then log else log + [st.merge(Current(st, log, id), h)]
  }

  function StoreRun<H, R, S>(st: MergeStore<H, R, S>, hs: seq<H>): (log: seq<R>)
  {
    if hs == [] then [] else StoreStep(st, StoreRun(st, hs[..|hs| - 1]), hs[|hs| - 1])
  }

  /** The inputs of one id folded into its record. */
  function Fold<H, R, S>(st: MergeStore<H, R, S>, hs: seq<H>): (r: Option<S>)
    ensures r.Some? <==> hs != []
  {
    if hs == [] then None else Some(st.update(Fold(st, hs[..|hs| - 1]), hs[|hs| - 1]))
  }

  lemma FoldSnoc<H, R, S>(st: MergeStore<H, R, S>, hs: seq<H>, h: H)
    ensures Fold(st, hs + [h]) == Some(st.update(Fold(st, hs), h))
  {
    assert (hs + [h])[..|hs|] == hs;
  }

  /** Whatever the interleaving, the current record of an id is the fold of its own inputs. */
  lemma {:induction false} RecordsAreIndependent<H(!new), R(!new), S(!new)>(
      st: MergeStore<H, R, S>, hs: seq<H>, id: string)
    requires WellBehaved(st) && id != ""
    ensures Current(st, StoreRun(st, hs), id) == Fold(st, Filter(hs, HasId(st.inputId, id)))
  {
    if hs != [] {
      var rest, h := hs[..|hs| - 1], hs[|hs| - 1];
      RecordsAreIndependent(st, rest, id);
      assert hs == rest + [h];
      FilterIdSnoc(rest, h, st.inputId, id);
      assert st.inputId(h) != id ==> Filter(hs, HasId(st.inputId, id)) == Filter(rest, HasId(st.inputId, id));
      var log, target := StoreRun(st, rest), st.inputId(h);
      if target != "" {
        var prev := Current(st, log, target);
        var row := st.merge(prev, h);
        assert st.rowId(row) == target && st.record(row) == st.update(prev, h);
        LatestSnoc(log, row, st.rowId, id);
        FoldSnoc(st, Filter(rest, HasId(st.inputId, id)), h);
      }
    }
  }
}
