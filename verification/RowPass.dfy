/** The shape the resolution passes share: walk every row once, judge it against the map as it
    stood before the pass, and keep the replacement where there is one. */
module RowPass {
  import opened Wrappers
  import opened Model

  method Replace(ids: seq<string>, rows: Rows, verdict: Entity -> Option<Entity>) returns (out: Rows,
        changed: set<string>)
    requires Lists(ids, rows)
    ensures out.Keys == rows.Keys
    ensures forall id :: id in rows ==> out[id] == verdict(rows[id]).GetOr(rows[id])
    ensures forall id :: id in changed <==> id in rows && verdict(rows[id]).Some?
  {
    out, changed := rows, {};
    for i := 0 to |ids|
      invariant out.Keys == rows.Keys && changed <= rows.Keys
      invariant forall j :: 0 <= j < i ==> out[ids[j]] == verdict(rows[ids[j]]).GetOr(rows[ids[j]])
      invariant forall j :: i <= j < |ids| ==> out[ids[j]] == rows[ids[j]]
      invariant forall j :: 0 <= j < i ==> (ids[j] in changed <==> verdict(rows[ids[j]]).Some?)
      invariant forall j :: i <= j < |ids| ==> ids[j] !in changed
    {
      var replacement := verdict(rows[ids[i]]);
      if replacement.Some? {
        out := out[ids[i] := replacement.value];
        changed := changed + {ids[i]};
      }
    }
    forall id | id in rows
      ensures out[id] == verdict(rows[id]).GetOr(rows[id]) && (id in changed <==> verdict(rows[id]).Some?)
    {
      var j :| 0 <= j < |ids| && ids[j] == id;
    }
  }
}
