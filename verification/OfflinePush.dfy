/** Telling the website about an offline order and filing the ids it answers with
    (contact_stage_bar/models/lgd_offline_push.py): how an order's lines fall into payload
    entries, which line anchors each entry, and which line an answer is written to.

    A line's number is the id the website gave it, "" while it has none. The kin of an order
    are its goods lines, dead ones included, in the order the form lists them. */
module OfflinePush {
  import opened Basics

  /** parcel is the size line of a line filed as MELEE, 0 on every other line. */
  datatype Line = Line(number: string, certificate: string, sku: string, parcel: nat, dead: bool)

  type Lines = map<nat, Line>

  /** One entry of an answer; 0 and "" stand for a key the website left out. */
  datatype Entry = Entry(id: string, ref: nat, certificate: string, sku: string)

  predicate ValidKin(kin: seq<nat>, lines: Lines) {
    && 0 !in kin
    && (forall l | l in kin :: l in lines)
    && (forall i, j | 0 <= i < j < |kin| :: kin[i] != kin[j])
  }

  // ── Matching an answer to a line ─────────────────────────────

  function First(kin: seq<nat>, chosen: set<nat>): (r: Option<nat>)
    ensures r.None? <==> forall l | l in kin :: l !in chosen
    ensures r.Some? ==> r.value in kin && r.value in chosen
  {
    if kin == [] then None
    else if kin[0] in chosen then Some(kin[0])
    else First(kin[1..], chosen)
  }

  /** The one that stands first among the chosen. */
  lemma {:induction false} FirstIsFirst(kin: seq<nat>, chosen: set<nat>, i: nat)
    requires i < |kin| && kin[i] in chosen && forall j | 0 <= j < i :: kin[j] !in chosen
    ensures First(kin, chosen) == Some(kin[i])
  {
    if i > 0 {
      FirstIsFirst(kin[1..], chosen, i - 1);
    }
  }

  function ByCertificate(lines: Lines, kin: seq<nat>, e: Entry): set<nat> {
    set l | l in kin && l in lines && e.certificate != "" && lines[l].certificate == e.certificate &&
        lines[l].number == ""
  }

  function BySku(lines: Lines, kin: seq<nat>, e: Entry): set<nat> {
    set l | l in kin && l in lines && e.sku != "" && lines[l].sku == e.sku && lines[l].number == ""
  }

  /** The line reference first; then an unnumbered line of the certificate; then one of the
      stock number. */
  function Match(lines: Lines, kin: seq<nat>, e: Entry): (r: Option<nat>)
    ensures r.Some? ==> r.value in kin
  {
    if e.ref != 0 && e.ref in kin then Some(e.ref)
    else
      var byCertificate := First(kin, ByCertificate(lines, kin, e));
      if byCertificate.Some? then byCertificate else First(kin, BySku(lines, kin, e))
  }

  /** Of the order's lines that have no number yet, the one the form lists first with this
      certificate; and with this stock number. */
  ghost predicate FirstOfCertificate(lines: Lines, kin: seq<nat>, certificate: string, l: nat) {
    exists i :: 0 <= i < |kin| && kin[i] == l && l in lines
      && lines[l].number == "" && lines[l].certificate == certificate
      && forall j | 0 <= j < i && kin[j] in lines && lines[kin[j]].number == "" ::
          lines[kin[j]].certificate != certificate
  }

  ghost predicate FirstOfSku(lines: Lines, kin: seq<nat>, sku: string, l: nat) {
    exists i :: 0 <= i < |kin| && kin[i] == l && l in lines
      && lines[l].number == "" && lines[l].sku == sku
      && forall j | 0 <= j < i && kin[j] in lines && lines[kin[j]].number == "" :: lines[kin[j]].sku != sku
  }

  /** The line an entry is for: the one it refers to, if that is a line of the order; otherwise the
      first unnumbered one of its certificate, if there is one; otherwise of its stock number. */
  ghost predicate IsFor(lines: Lines, kin: seq<nat>, e: Entry, l: nat) {
    if e.ref != 0 && e.ref in kin then l == e.ref
    else if e.certificate != "" && exists m :: FirstOfCertificate(lines, kin, e.certificate, m)
    then FirstOfCertificate(lines, kin, e.certificate, l)
    else e.sku != "" && FirstOfSku(lines, kin, e.sku, l)
  }

  lemma {:induction false} FirstStands(kin: seq<nat>, chosen: set<nat>, l: nat)
    ensures First(kin, chosen) == Some(l) <==>
      exists i :: 0 <= i < |kin| && kin[i] == l && l in chosen && forall j | 0 <= j < i :: kin[j] !in chosen
  {
    if i :| 0 <= i < |kin| && kin[i] == l && l in chosen && forall j | 0 <= j < i :: kin[j] !in chosen {
      FirstIsFirst(kin, chosen, i);
    }
    if First(kin, chosen) == Some(l) && kin[0] !in chosen {
      FirstStands(kin[1..], chosen, l);
      var i :| 0 <= i < |kin[1..]| && kin[1..][i] == l && l in chosen && forall j | 0 <= j < i ::
          kin[1..][j] !in chosen;
      assert kin[i + 1] == l && forall j | 0 < j < i + 1 :: kin[j] == kin[1..][j - 1];
    }
  }

  lemma FirstByCertificate(lines: Lines, kin: seq<nat>, e: Entry, l: nat)
    ensures First(kin, ByCertificate(lines, kin, e)) == Some(l) <==>
      e.certificate != "" && FirstOfCertificate(lines, kin, e.certificate, l)
  {
    FirstStands(kin, ByCertificate(lines, kin, e), l);
    hide First;
    assert forall j | 0 <= j < |kin| :: kin[j] in ByCertificate(lines, kin, e) <==>
      kin[j] in lines && e.certificate != "" && lines[kin[j]].certificate == e.certificate &&
          lines[kin[j]].number == "";
  }

  lemma FirstBySku(lines: Lines, kin: seq<nat>, e: Entry, l: nat)
    ensures First(kin, BySku(lines, kin, e)) == Some(l) <==> e.sku != "" && FirstOfSku(lines, kin, e.sku, l)
  {
    FirstStands(kin, BySku(lines, kin, e), l);
    hide First;
    assert forall j | 0 <= j < |kin| :: kin[j] in BySku(lines, kin, e) <==>
      kin[j] in lines && e.sku != "" && lines[kin[j]].sku == e.sku && lines[kin[j]].number == "";
  }

  lemma MatchIsFor(lines: Lines, kin: seq<nat>, e: Entry, l: nat)
    ensures Match(lines, kin, e) == Some(l) <==> IsFor(lines, kin, e, l)
  {
    forall m {
      FirstByCertificate(lines, kin, e, m);
    }
    FirstBySku(lines, kin, e, l);
    hide FirstOfCertificate, FirstOfSku, ByCertificate, BySku;
    var byCertificate := First(kin, ByCertificate(lines, kin, e));
    if byCertificate.Some? {
      assert FirstOfCertificate(lines, kin, e.certificate, byCertificate.value);
    }
  }

  ghost predicate HeldElsewhere(lines: Lines, id: string, l: nat) {
    exists m :: m in lines && m != l && lines[m].number == id
  }

  /** What one entry leaves behind. */
  ghost function StoreOne(lines: Lines, kin: seq<nat>, e: Entry): Lines
    requires ValidKin(kin, lines)
  {
    var found := Match(lines, kin, e);
    if e.id == "" || found.None? || lines[found.value].number != "" || HeldElsewhere(lines, e.id, found.value)
        then lines
    else lines[found.value := lines[found.value].(number := e.id)]
  }

  /** An entry that brings an id numbers the line it is for, unless that line has a number or some
      other line holds the id; and touches nothing else. */
  lemma FiledExactlyWhen(lines: Lines, kin: seq<nat>, e: Entry, l: nat)
    requires ValidKin(kin, lines) && l in lines
    ensures StoreOne(lines, kin, e).Keys == lines.Keys
    ensures StoreOne(lines, kin, e)[l] ==
      if && e.id != "" && IsFor(lines, kin, e, l) && lines[l].number == ""
         && forall m | m in lines && m != l :: lines[m].number != e.id
      then lines[l].(number := e.id) else lines[l]
  {
    MatchIsFor(lines, kin, e, l);
    hide Match, IsFor;
  }

  ghost function StoreAll(lines: Lines, kin: seq<nat>, entries: seq<Entry>): (r: Lines)
    requires ValidKin(kin, lines)
    ensures r.Keys == lines.Keys
    decreases |entries|
  {
    if entries == [] then lines else StoreAll(StoreOne(lines, kin, entries[0]), kin, entries[1..])
  }

  // ── Payload entries ──────────────────────────────────────────

  datatype Key = Parcel(sizeLine: nat) | Single(line: nat)

  /** byParcel is the shape asked for: slices of one size line share an entry, or every line
      is its own. */
  function KeyOf(lines: Lines, l: nat, byParcel: bool): Key
    requires l in lines
  {
    if byParcel && lines[l].parcel != 0 then Parcel(lines[l].parcel) else Single(l)
  }

  function KinOf(lines: Lines, kin: seq<nat>, byParcel: bool, key: Key): set<nat> {
    set l | l in kin && l in lines && KeyOf(lines, l, byParcel) == key
  }

  function Members(lines: Lines, kin: seq<nat>, byParcel: bool, key: Key): set<nat> {
    set l | l in kin && l in lines && KeyOf(lines, l, byParcel) == key && !lines[l].dead
  }

  function Numbered(lines: Lines, ls: set<nat>): set<nat> {
    set l | l in ls && l in lines && lines[l].number != ""
  }

  lemma {:induction false} LowestOf(s: set<nat>) returns (x: nat)
    requires s != {}
    ensures x in s && forall y | y in s :: x <= y
  {
    x :| x in s;
    if s != {x} {
      var rest := s - {x};
      var w := LowestOf(rest);
      assert forall y | y in s :: y == x || y in rest;
      x := if x <= w then x else w;
    }
  }

  lemma LowestExists(s: set<nat>)
    requires s != {}
    ensures exists x :: x in s && forall y | y in s :: x <= y
  {
    var x := LowestOf(s);
  }

  function Lowest(s: set<nat>): (x: nat)
    requires s != {}
    ensures x in s && forall y | y in s :: x <= y
  {
    LowestExists(s);
    var x :| x in s && forall y | y in s :: x <= y;
    x
  }

  datatype Group = Group(key: Key, head: nat, members: set<nat>, kin: set<nat>)

  /** The line that anchors an entry: the lowest line of it that holds a number, dead or not;
      failing that its lowest live line. */
  function Anchor(lines: Lines, members: set<nat>, kin: set<nat>): (head: nat)
    requires members != {} && members <= kin
    ensures head in kin
  {
    var numbered := Numbered(lines, kin);
    if numbered != {} then Lowest(numbered) else Lowest(members)
  }

  function Head(lines: Lines, kin: seq<nat>, byParcel: bool, key: Key): (head: nat)
    requires Members(lines, kin, byParcel, key) != {}
    ensures head in KinOf(lines, kin, byParcel, key)
  {
    Anchor(lines, Members(lines, kin, byParcel, key), KinOf(lines, kin, byParcel, key))
  }

  predicate IsGroup(g: Group, lines: Lines, kin: seq<nat>, byParcel: bool) {
    && g.members == Members(lines, kin, byParcel, g.key) != {}
    && g.kin == KinOf(lines, kin, byParcel, g.key)
    && g.head == Head(lines, kin, byParcel, g.key)
  }

  /** What a list of groups must be: one for every entry some live line belongs to, complete
      on both sides, none twice. */
  predicate Groups(gs: seq<Group>, lines: Lines, kin: seq<nat>, byParcel: bool) {
    && (forall i | 0 <= i < |gs| :: IsGroup(gs[i], lines, kin, byParcel))
    && (forall i, j | 0 <= i < j < |gs| :: gs[i].key != gs[j].key)
    && (forall l | l in kin && l in lines && !lines[l].dead ::
          exists i :: 0 <= i < |gs| && gs[i].key == KeyOf(lines, l, byParcel))
  }

  /** An entry some live line waits on that holds no number anywhere in its kin. */
  ghost predicate Unanswered(lines: Lines, kin: seq<nat>) {
    exists l :: l in kin && l in lines && !lines[l].dead &&
        Numbered(lines, KinOf(lines, kin, true, KeyOf(lines, l, true))) == {}
  }

  /** A group holds the lines that share a payload entry with one of its live lines, and its head is
      the lowest of them with a number, dead or not; failing that the lowest that lives. */
  lemma GroupReads(g: Group, lines: Lines, kin: seq<nat>, byParcel: bool, l: nat)
    requires ValidKin(kin, lines) && IsGroup(g, lines, kin, byParcel) && l in g.members
    ensures l in kin && !lines[l].dead
    ensures forall m :: m in g.kin <==>
      m in kin && (m == l || (byParcel && lines[m].parcel == lines[l].parcel && lines[l].parcel != 0))
    ensures forall m :: m in g.members <==> m in g.kin && !lines[m].dead
    ensures if exists m :: m in g.kin && lines[m].number != ""
      then lines[g.head].number != "" && g.head in g.kin && forall m | m in g.kin && lines[m].number != "" ::
          g.head <= m
      else g.head in g.members && forall m | m in g.members :: g.head <= m
  {
    assert forall m :: m in Numbered(lines, g.kin) <==> m in g.kin && lines[m].number != "";
    assert g.head == Anchor(lines, g.members, g.kin);
    if Numbered(lines, g.kin) != {} {
      var m :| m in Numbered(lines, g.kin);
      assert m in g.kin && lines[m].number != "";
    }
  }

  datatype Bucket = Bucket(members: set<nat>, kin: set<nat>)

  ghost predicate FilledAt(buckets: map<Key, Bucket>, lines: Lines, kin: seq<nat>, byParcel: bool, key: Key) {
    && (key in buckets <==> KinOf(lines, kin, byParcel, key) != {})
    && (key in buckets ==> buckets[key] == Bucket(Members(lines, kin, byParcel, key), KinOf(lines, kin, byParcel, key)))
  }

  ghost predicate Filled(buckets: map<Key, Bucket>, lines: Lines, kin: seq<nat>, byParcel: bool) {
    forall key {:trigger FilledAt(buckets, lines, kin, byParcel, key)} :: FilledAt(buckets, lines, kin, byParcel, key)
  }

  lemma OneMoreLine(buckets: map<Key, Bucket>, lines: Lines, kin: seq<nat>, byParcel: bool, l: nat)
    requires Filled(buckets, lines, kin, byParcel) && l in lines
    ensures
      var key := KeyOf(lines, l, byParcel);
      var was := if key in buckets then buckets[key] else Bucket({}, {});
      var now := Bucket(if lines[l].dead then was.members else was.members + {l}, was.kin + {l});
      Filled(buckets[key := now], lines, kin + [l], byParcel)
  {
    var key := KeyOf(lines, l, byParcel);
    var was := if key in buckets then buckets[key] else Bucket({}, {});
    var now := Bucket(if lines[l].dead then was.members else was.members + {l}, was.kin + {l});
    forall other {:trigger FilledAt(buckets[key := now], lines, kin + [l], byParcel, other)}
      ensures FilledAt(buckets[key := now], lines, kin + [l], byParcel, other)
    {
      assert FilledAt(buckets, lines, kin, byParcel, other);
      assert Members(lines, kin, byParcel, other) <= KinOf(lines, kin, byParcel, other);
      var extra := if other == key then {l} else {};
      assert KinOf(lines, kin + [l], byParcel, other) == KinOf(lines, kin, byParcel, other) + extra;
      assert Members(lines, kin + [l], byParcel, other) == Members(lines, kin, byParcel, other) +
          (if lines[l].dead then {} else extra);
    }
  }

  lemma BucketOf(buckets: map<Key, Bucket>, lines: Lines, kin: seq<nat>, byParcel: bool, l: nat)
    requires Filled(buckets, lines, kin, byParcel) && l in kin && l in lines && !lines[l].dead
    ensures
      var key := KeyOf(lines, l, byParcel);
      && key in buckets && l in buckets[key].members && buckets[key].members <= buckets[key].kin
      && buckets[key] == Bucket(Members(lines, kin, byParcel, key), KinOf(lines, kin, byParcel, key))
  {
    assert FilledAt(buckets, lines, kin, byParcel, KeyOf(lines, l, byParcel));
    assert l in KinOf(lines, kin, byParcel, KeyOf(lines, l, byParcel));
  }

  // ── The program ──────────────────────────────────────────────

  lemma OneMoreNumbered(lines: Lines, l: nat, id: string)
    requires l in lines && lines[l].number == "" && id != ""
    ensures
      var later := lines[l := lines[l].(number := id)];
      |Numbered(later, later.Keys)| == |Numbered(lines, lines.Keys)| + 1
  {
    var later := lines[l := lines[l].(number := id)];
    assert Numbered(later, later.Keys) == Numbered(lines, lines.Keys) + {l};
  }

  /** One order among all the lines of the database. */
  class Order {
    const kin: seq<nat>
    var lines: Lines
    var offline: bool
    var pushed: bool

    constructor (kin: seq<nat>, lines: Lines, offline: bool)
      requires ValidKin(kin, lines)
      ensures this.kin == kin && this.lines == lines && this.offline == offline && !pushed
    {
      this.kin, this.lines, this.offline, this.pushed := kin, lines, offline, false;
    }

    ghost predicate Valid()
      reads this
    {
      ValidKin(kin, lines)
    }

    /** filtered(...)[:1] over the order's goods lines, by certificate or by stock number. */
    method FirstUnnumbered(e: Entry, byCertificate: bool) returns (r: Option<nat>)
      requires Valid()
      ensures r == First(kin, if byCertificate then ByCertificate(lines, kin, e) else BySku(lines, kin, e))
    {
      ghost var chosen := if byCertificate then ByCertificate(lines, kin, e) else BySku(lines, kin, e);
      for i := 0 to |kin|
        invariant First(kin, chosen) == First(kin[i..], chosen)
      {
        assert kin[i..][1..] == kin[i + 1..];
        var l := kin[i];
        var suits := if byCertificate then e.certificate != "" && lines[l].certificate == e.certificate
                     else e.sku != "" && lines[l].sku == e.sku;
        if suits && lines[l].number == "" {
          return Some(l);
        }
      }
      return None;
    }

    method MatchEntry(e: Entry) returns (r: Option<nat>)
      requires Valid()
      ensures r == Match(lines, kin, e)
      ensures forall l: nat :: r == Some(l) <==> IsFor(lines, kin, e, l)
    {
      forall l: nat {
        MatchIsFor(lines, kin, e, l);
      }
      r := if e.ref != 0 && e.ref in kin then Some(e.ref) else None;
      if r.None? {
        r := FirstUnnumbered(e, true);
      }
      if r.None? {
        r := FirstUnnumbered(e, false);
      }
    }

    /** _lgd_store_order_unique_ids: how many ids were stored, one line each. */
    method StoreIds(entries: seq<Entry>) returns (stored: nat)
      requires Valid()
      modifies this`lines
      ensures Valid() && lines == StoreAll(old(lines), kin, entries)
      ensures stored == |Numbered(lines, lines.Keys)| - |Numbered(old(lines), old(lines).Keys)|
    {
      hide Match, Numbered;
      stored := 0;
      for i := 0 to |entries|
        invariant Valid()
        invariant StoreAll(lines, kin, entries[i..]) == StoreAll(old(lines), kin, entries)
        invariant stored == |Numbered(lines, lines.Keys)| - |Numbered(old(lines), old(lines).Keys)|
      {
        var e := entries[i];
        assert entries[i..][1..] == entries[i + 1..];
        if e.id != "" {
          var found := MatchEntry(e);
          if found.Some? && lines[found.value].number == "" &&
              !(exists m | m in lines :: m != found.value && lines[m].number == e.id) {
            OneMoreNumbered(lines, found.value, e.id);
            lines := lines[found.value := lines[found.value].(number := e.id)];
            stored := stored + 1;
          }
        }
      }
    }

    /** The first pass of _lgd_offline_groups: every line into its bucket. */
    method FillBuckets(byParcel: bool) returns (buckets: map<Key, Bucket>)
      requires Valid()
      ensures Filled(buckets, lines, kin, byParcel)
    {
      buckets := map[];
      for i := 0 to |kin|
        invariant Filled(buckets, lines, kin[..i], byParcel)
      {
        var l := kin[i];
        var key := KeyOf(lines, l, byParcel);
        var was := if key in buckets then buckets[key] else Bucket({}, {});
        var now := Bucket(if lines[l].dead then was.members else was.members + {l}, was.kin + {l});
        OneMoreLine(buckets, lines, kin[..i], byParcel, l);
        buckets := buckets[key := now];
        assert kin[..i + 1] == kin[..i] + [l];
      }
      assert kin[..|kin|] == kin;
    }

    /** _lgd_offline_groups: the buckets, read off in the order their first live line is met. */
    method OfflineGroups(byParcel: bool) returns (gs: seq<Group>)
      requires Valid()
      ensures Groups(gs, lines, kin, byParcel)
      ensures forall i, j | 0 <= i < j < |gs| :: FirstLive(gs[i].key, byParcel) < FirstLive(gs[j].key, byParcel)
    {
      hide Members, KinOf, Numbered, Anchor, Filled, FirstLiveIn;
      var buckets := FillBuckets(byParcel);
      gs := [];
      var seen: set<Key> := {};
      for i := 0 to |kin|
        invariant forall k | 0 <= k < |gs| ::
            IsGroup(gs[k], lines, kin, byParcel) && gs[k].key in seen && FirstLive(gs[k].key, byParcel) < i
        invariant forall key | key in seen :: exists k :: 0 <= k < |gs| && gs[k].key == key
        invariant forall k | 0 <= k < i && !lines[kin[k]].dead :: KeyOf(lines, kin[k], byParcel) in seen
        invariant forall k, j | 0 <= k < j < |gs| :: FirstLive(gs[k].key, byParcel) < FirstLive(gs[j].key, byParcel)
      {
        var l := kin[i];
        var key := KeyOf(lines, l, byParcel);
        if !lines[l].dead && key !in seen {
          BucketOf(buckets, lines, kin, byParcel, l);
          var Bucket(members, kinHere) := buckets[key];
          var head := Anchor(lines, members, kinHere);
          FirstLiveIs(key, byParcel, i);
          var was := gs;
          gs := gs + [Group(key, head, members, kinHere)];
          seen := seen + {key};
          assert gs[|was|].key == key;
          assert forall k | 0 <= k < |was| :: gs[k] == was[k];
        }
      }
    }

    /** The position of an entry's first live line. */
    ghost function FirstLive(key: Key, byParcel: bool): (i: nat)
      requires Valid()
      reads this
      ensures i <= |kin|
    {
      FirstLiveIn(lines, kin, key, byParcel)
    }

    lemma FirstLiveIs(key: Key, byParcel: bool, i: nat)
      requires Valid()
      requires i < |kin| && !lines[kin[i]].dead && KeyOf(lines, kin[i], byParcel) == key
      requires forall k | 0 <= k < i && !lines[kin[k]].dead :: KeyOf(lines, kin[k], byParcel) != key
      ensures FirstLive(key, byParcel) == i
    {
      FirstLiveInIs(lines, kin, key, byParcel, i);
    }

    /** _lgd_needs_offline_push. */
    method NeedsPush() returns (needed: bool)
      requires Valid()
      ensures needed <==> offline && !pushed && Unanswered(lines, kin)
    {
      if !offline || pushed {
        return false;
      }
      var gs := OfflineGroups(true);
      needed := false;
      for i := 0 to |gs|
        invariant needed <==> exists k :: 0 <= k < i && Numbered(lines, gs[k].kin) == {}
      {
        if (set m | m in gs[i].kin && lines[m].number != "") == {} {
          assert Numbered(lines, gs[i].kin) == {};
          needed := true;
        } else {
          assert Numbered(lines, gs[i].kin) == set m | m in gs[i].kin && lines[m].number != "";
        }
      }
      if needed {
        var k :| 0 <= k < |gs| && Numbered(lines, gs[k].kin) == {};
        ghost var l :| l in gs[k].members;
        assert KeyOf(lines, l, true) == gs[k].key;
      }
    }
  }

  ghost function FirstLiveIn(lines: Lines, kin: seq<nat>, key: Key, byParcel: bool): (i: nat)
    requires forall l | l in kin :: l in lines
    ensures i <= |kin|
  {
    if kin == [] || (!lines[kin[0]].dead && KeyOf(lines, kin[0], byParcel) == key) then 0
    else 1 + FirstLiveIn(lines, kin[1..], key, byParcel)
  }

  lemma {:induction false} FirstLiveInIs(lines: Lines, kin: seq<nat>, key: Key, byParcel: bool, i: nat)
    requires forall l | l in kin :: l in lines
    requires i < |kin| && !lines[kin[i]].dead && KeyOf(lines, kin[i], byParcel) == key
    requires forall k | 0 <= k < i && !lines[kin[k]].dead :: KeyOf(lines, kin[k], byParcel) != key
    ensures FirstLiveIn(lines, kin, key, byParcel) == i
  {
    if i > 0 {
      FirstLiveInIs(lines, kin[1..], key, byParcel, i - 1);
    }
  }
}
