/** The browser's repeating timers, as far as one slider uses them.

    `setInterval` hands out a fresh positive handle and schedules a callback;
    `clearInterval(h)` unschedules it, and does nothing for a handle that is not
    scheduled (in particular for `undefined`, which the model writes as `0`).
    No time passes in the model: a scheduled handle is one whose callback may fire.
 */
module Intervals {

  /** The handles still scheduled, and the last handle issued. */
  datatype Table = Table(live: set<nat>, issued: nat)

  /** Every scheduled handle was issued, and `0` is never one. */
  predicate Valid(t: Table)
  {
    forall h :: h in t.live ==> 1 <= h <= t.issued
  }

  /** No timer at all, as before the first `setInterval`. */
  function Empty(): (t: Table)
    ensures Valid(t) && t.live == {}
  {
    Table({}, 0)
  }

  /** `setInterval`: the new table and the handle it returns.  The handle differs
      from every one issued before, and is the only one added. */
  function SetInterval(t: Table): (r: (Table, nat))
    requires Valid(t)
    ensures Valid(r.0) && r.1 >= 1 && r.1 !in t.live
    ensures r.0.live == t.live + {r.1} && |r.0.live| == |t.live| + 1
    ensures r.0.issued == r.1 > t.issued
  {
    var h := t.issued + 1;
    (Table(t.live + {h}, h), h)
  }

  /** `clearInterval(h)`: `h` is no longer scheduled; every other handle is left as
      it was. */
  function ClearInterval(t: Table, h: nat): (r: Table)
    requires Valid(t)
    ensures Valid(r) && r.issued == t.issued
    ensures h !in r.live && forall g :: g in t.live && g != h ==> g in r.live
    ensures r.live <= t.live
    ensures h !in t.live ==> r == t
  {
    Table(t.live - {h}, t.issued)
  }
}
