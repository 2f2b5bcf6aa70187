/** The nested schedule store kept in `schedules.json`:
    university -> "degrees" -> degree -> "groups" -> group -> day -> D.
    The two generations of the bot store different things per day: the
    current bot a table from time slot to lesson fields, the older bot a
    plain list of lessons; the store is generic in that day value `D`. */
module Store {
  import opened Wrappers

  /** A degree entry `{"groups": {group: {day: D}}}`. */
  datatype Degree<D> = Degree(groups: map<string, map<string, D>>)

  /** A university entry `{"degrees": {degree: ...}}`. */
  datatype University<D> = University(degrees: map<string, Degree<D>>)

  type Schedules<D> = map<string, University<D>>

  predicate HasDegree<D>(s: Schedules<D>, u: string, d: string) {
    u in s && d in s[u].degrees
  }

  predicate HasGroup<D>(s: Schedules<D>, u: string, d: string, g: string) {
    HasDegree(s, u, d) && g in s[u].degrees[d].groups
  }

  predicate HasDay<D>(s: Schedules<D>, u: string, d: string, g: string, day: string) {
    HasGroup(s, u, d, g) && day in s[u].degrees[d].groups[g]
  }

  /** The defaulting chain
      `s.get(u, {}).get("degrees", {}).get(d, {}).get("groups", {}).get(g, {})`. */
  function GroupDays<D>(s: Schedules<D>, u: string, d: string, g: string): (days: map<string, D>)
    ensures HasGroup(s, u, d, g) ==> days == s[u].degrees[d].groups[g]
    ensures !HasGroup(s, u, d, g) ==> days == map[]
  {
    var degrees := if u in s then s[u].degrees else map[];
    var groups := if d in degrees then degrees[d].groups else map[];
    if g in groups then groups[g] else map[]
  }

  /** The same chain ended by `.get(day)`: a value is found exactly when every
      level university, degree, group and day exists. */
  function DayLookup<D>(s: Schedules<D>, u: string, d: string, g: string, day: string): (r: Option<D>)
    ensures r.Some? <==> HasDay(s, u, d, g, day)
    ensures r.Some? ==> r.value == s[u].degrees[d].groups[g][day]
  {
    var days := GroupDays(s, u, d, g);
    if day in days then Some(days[day]) else None
  }

  /** The two "create if missing" steps for a university and a degree:
      `if u not in s: s[u] = {"degrees": {}}` and
      `if d not in s[u]["degrees"]: s[u]["degrees"][d] = {"groups": {}}`. */
  function EnsureDegree<D>(s: Schedules<D>, u: string, d: string): (r: Schedules<D>)
    ensures HasDegree(r, u, d)
    ensures r.Keys == s.Keys + {u}
    ensures forall u' :: u' in s && u' != u ==> r[u'] == s[u']
    ensures forall d' :: d' != d ==> (d' in r[u].degrees <==> HasDegree(s, u, d'))
    ensures forall d' :: HasDegree(s, u, d') && d' != d ==> d' in r[u].degrees && r[u].degrees[d'] == s[u].degrees[d']
    ensures HasDegree(s, u, d) ==> r == s
    ensures !HasDegree(s, u, d) ==> r[u].degrees[d] == Degree(map[])
  {
    if u !in s then s[u := University(map[d := Degree(map[])])]
    else if d !in s[u].degrees then s[u := s[u].(degrees := s[u].degrees[d := Degree(map[])])]
    else s
  }

  /** Replaces the whole groups table of one existing degree. */
  function SetGroups<D>(s: Schedules<D>, u: string, d: string, groups: map<string, map<string, D>>): (r: Schedules<D>)
    requires HasDegree(s, u, d)
    ensures HasDegree(r, u, d) && r[u].degrees[d].groups == groups
    ensures r.Keys == s.Keys && r[u].degrees.Keys == s[u].degrees.Keys
    ensures forall u' :: u' in s && u' != u ==> r[u'] == s[u']
    ensures forall d' :: d' in s[u].degrees && d' != d ==> r[u].degrees[d'] == s[u].degrees[d']
  {
    s[u := s[u].(degrees := s[u].degrees[d := Degree(groups)])]
  }

  /** `handle_approval` on "approve": creates the university and degree when
      missing and then sets `groups[g] = sched[g]` for every group of the
      uploaded sheet. Every group of the sheet is replaced wholesale; every
      other group, degree and university is left as it was. */
  function Approve<D>(s: Schedules<D>, u: string, d: string, sched: map<string, map<string, D>>): (r: Schedules<D>)
    ensures HasDegree(r, u, d)
    ensures r.Keys == s.Keys + {u}
    ensures forall u' :: u' in s && u' != u ==> r[u'] == s[u']
    ensures forall d' :: d' != d ==> (d' in r[u].degrees <==> HasDegree(s, u, d'))
    ensures forall d' :: HasDegree(s, u, d') && d' != d ==> d' in r[u].degrees && r[u].degrees[d'] == s[u].degrees[d']
    ensures forall g :: g in sched ==> g in r[u].degrees[d].groups && r[u].degrees[d].groups[g] == sched[g]
    ensures forall g :: g !in sched ==> (g in r[u].degrees[d].groups <==> HasGroup(s, u, d, g))
    ensures forall g :: g !in sched && HasGroup(s, u, d, g) ==>
      r[u].degrees[d].groups[g] == s[u].degrees[d].groups[g]
  {
    var e := EnsureDegree(s, u, d);
    SetGroups(e, u, d, e[u].degrees[d].groups + sched)
  }

  /** `add_schedule` of the older bot: creates any missing university,
      degree and group level and sets that group's `day` to `v`; every other
      day of every group keeps what it had. */
  function UpsertDay<D>(s: Schedules<D>, u: string, d: string, g: string, day: string, v: D): (r: Schedules<D>)
    ensures DayLookup(r, u, d, g, day) == Some(v)
    ensures forall u', d', g', day' :: (u', d', g', day') != (u, d, g, day) ==>
      DayLookup(r, u', d', g', day') == DayLookup(s, u', d', g', day')
    ensures r.Keys == s.Keys + {u}
  {
    var e := EnsureDegree(s, u, d);
    var groups := e[u].degrees[d].groups;
    var days := if g in groups then groups[g] else map[];
    SetGroups(e, u, d, groups[g := days[day := v]])
  }

  /** `add_schedule` adds exactly the degree and group it names to the
      levels of the store. */
  lemma UpsertDayKeepsLevels<D>(s: Schedules<D>, u: string, d: string, g: string, day: string, v: D)
    ensures forall u', d' :: HasDegree(UpsertDay(s, u, d, g, day, v), u', d') <==> HasDegree(s, u', d') || (u', d') == (u, d)
    ensures forall u', d', g' :: HasGroup(UpsertDay(s, u, d, g, day, v), u', d', g') <==>
      HasGroup(s, u', d', g') || (u', d', g') == (u, d, g)
  {
  }

  /** Neither write operation ever removes a level of the store. */
  lemma ApproveKeepsLevels<D>(s: Schedules<D>, u: string, d: string, sched: map<string, map<string, D>>)
    ensures forall u', d' :: HasDegree(s, u', d') ==> HasDegree(Approve(s, u, d, sched), u', d')
    ensures forall u', d', g' :: HasGroup(s, u', d', g') ==> HasGroup(Approve(s, u, d, sched), u', d', g')
  {
  }
}
