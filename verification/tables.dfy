/** Relational tables as seen through the ORM: rows keyed by an auto-assigned
    primary key, queried by a row predicate. `objects.get` and the lookup half
    of `objects.get_or_create` classify the rows a filter selects as none, one
    or several (`DoesNotExist`, a row, `MultipleObjectsReturned`). */
module Tables {

  /** A table: its rows by primary key, and the next value of the key sequence. */
  datatype Table<R> = Table(rows: map<nat, R>, next: nat) {

    /** Every existing primary key was handed out by the sequence already. */
    predicate Valid() {
      forall id | id in rows :: id < next
    }
  }

  /** How many rows a filter selected, as `objects.get` reports it. */
  datatype Match = Absent | Unique(id: nat) | Multiple

  /** Row `id` exists and satisfies the filter `p`. */
  ghost predicate IsMatch<R>(t: Table<R>, p: R -> bool, id: nat) {
    id in t.rows && p(t.rows[id])
  }

  /** No row satisfies the filter `p`. */
  ghost predicate NoMatch<R>(t: Table<R>, p: R -> bool) {
    forall id :: !IsMatch(t, p, id)
  }

  /** Row `id` is the one and only row satisfying `p`. */
  ghost predicate OnlyMatch<R>(t: Table<R>, p: R -> bool, id: nat) {
    IsMatch(t, p, id) && forall other :: IsMatch(t, p, other) ==> other == id
  }

  /** At least two distinct rows satisfy `p`. */
  ghost predicate SeveralMatch<R>(t: Table<R>, p: R -> bool) {
    exists a, b :: a != b && IsMatch(t, p, a) && IsMatch(t, p, b)
  }

  /** The primary keys below `n` of the rows satisfying `p`, listed in
      ascending order. */
  function FilterBelow<R>(rows: map<nat, R>, p: R -> bool, n: nat): (ids: seq<nat>)
    ensures forall i | 0 <= i < |ids| :: ids[i] < n && ids[i] in rows && p(rows[ids[i]])
    ensures forall id: nat | id < n && id in rows && p(rows[id]) :: id in ids
    ensures forall i, j | 0 <= i < j < |ids| :: ids[i] < ids[j]
  {
    if n == 0 then []
    else
      var ids := FilterBelow(rows, p, n - 1);
      if n - 1 in rows && p(rows[n - 1]) then ids + [n - 1] else ids
  }

  /** The keys of the rows a filter selects, listed in ascending order. Only
      how many there are matters to `get`; the order is not Django's. */
  function Filter<R>(t: Table<R>, p: R -> bool): (ids: seq<nat>)
    requires t.Valid()
    ensures forall id :: id in ids <==> IsMatch(t, p, id)
    ensures forall i, j | 0 <= i < j < |ids| :: ids[i] < ids[j]
  {
    FilterBelow(t.rows, p, t.next)
  }

  /** `objects.get(<filter>)`: no row, the single row, or an ambiguity. */
  function Lookup<R>(t: Table<R>, p: R -> bool): (m: Match)
    requires t.Valid()
    ensures m.Absent? <==> NoMatch(t, p)
    ensures m.Unique? ==> OnlyMatch(t, p, m.id)
    ensures m.Multiple? <==> SeveralMatch(t, p)
  {
    var ids := Filter(t, p);
    if |ids| == 0 then Absent
    else if |ids| == 1 then Unique(ids[0])
    else
      assert ids[0] != ids[1];
      Multiple
  }

  /** The filter selects the same rows in `t` and `u`. */
  ghost predicate SameMatches<R>(t: Table<R>, u: Table<R>, p: R -> bool) {
    forall id :: IsMatch(t, p, id) <==> IsMatch(u, p, id)
  }

  /** `objects.get` depends only on which rows the filter selects. */
  lemma LookupDependsOnMatches<R>(t: Table<R>, u: Table<R>, p: R -> bool)
    requires t.Valid() && u.Valid()
    requires SameMatches(t, u, p)
    ensures Lookup(t, p) == Lookup(u, p)
  {
    var m, n := Lookup(t, p), Lookup(u, p);
    if m.Unique? && n.Unique? {
      assert IsMatch(u, p, m.id);
    }
  }

  /** `Model.objects.create(...)`: a new row under the next primary key. */
  function Insert<R>(t: Table<R>, row: R): (res: (Table<R>, nat))
    requires t.Valid()
    ensures res.1 !in t.rows
    ensures res.0.rows == t.rows[res.1 := row]
    ensures res.0.Valid()
  {
    (Table(t.rows[t.next := row], t.next + 1), t.next)
  }

  /** `row.save()`: the stored row with key `id` is replaced by `row`. */
  function Update<R>(t: Table<R>, id: nat, row: R): (u: Table<R>)
    requires t.Valid() && id in t.rows
    ensures u.rows.Keys == t.rows.Keys
    ensures u.rows[id] == row
    ensures forall other | other in t.rows && other != id :: u.rows[other] == t.rows[other]
    ensures u.Valid()
  {
    Table(t.rows[id := row], t.next)
  }
}
