/** What the website's answers can and cannot do to an order's lines: nothing is renumbered
    and no id is shared, whatever arrives; exactly when the order of the entries is
    immaterial; exactly when the push is done; and that an entry keeps its line for life. */
module OfflineAnswers {
  import opened Basics
  import opened OfflinePush

  // ── Whatever arrives ─────────────────────────────────────────

  /** No number is overwritten, nothing but numbers changes, and only on the order's lines. */
  ghost predicate OnlyFillsIn(lines: Lines, kin: seq<nat>, later: Lines) {
    && later.Keys == lines.Keys
    && (forall l | l in lines :: later[l] == lines[l].(number := later[l].number))
    && (forall l | l in lines && (lines[l].number != "" || l !in kin) :: later[l] == lines[l])
  }

  lemma {:induction false} NeverOverwrites(lines: Lines, kin: seq<nat>, entries: seq<Entry>)
    requires ValidKin(kin, lines)
    ensures OnlyFillsIn(lines, kin, StoreAll(lines, kin, entries))
    decreases |entries|
  {
    if entries != [] {
      NeverOverwrites(StoreOne(lines, kin, entries[0]), kin, entries[1..]);
    }
  }

  ghost predicate NoSharedId(lines: Lines) {
    forall l, m | l in lines && m in lines && l != m && lines[l].number != "" :: lines[l].number != lines[m].number
  }

  lemma {:induction false} IdsStayUnique(lines: Lines, kin: seq<nat>, entries: seq<Entry>)
    requires ValidKin(kin, lines) && NoSharedId(lines)
    ensures NoSharedId(StoreAll(lines, kin, entries))
    decreases |entries|
  {
    if entries != [] {
      var found := Match(lines, kin, entries[0]);
      assert found.Some? && !HeldElsewhere(lines, entries[0].id, found.value) ==>
          forall m | m in lines && m != found.value :: lines[m].number != entries[0].id;
      IdsStayUnique(StoreOne(lines, kin, entries[0]), kin, entries[1..]);
    }
  }

  // ── When the order of the entries is immaterial ──────────────

  predicate NamesItsLine(kin: seq<nat>, e: Entry) {
    e.ref != 0 && e.ref in kin
  }

  /** Could one and the same unnumbered line be given to either entry? Readable off the
      response and the order's line ids alone. */
  predicate Compete(kin: seq<nat>, e: Entry, f: Entry) {
    && e.id != "" && f.id != ""
    && if NamesItsLine(kin, e) then
         if NamesItsLine(kin, f) then e.ref == f.ref else f.certificate != "" || f.sku != ""
       else if NamesItsLine(kin, f) then e.certificate != "" || e.sku != ""
       else
         && kin != []
         && (|| (e.certificate != "" && (f.certificate == e.certificate || f.sku != ""))
             || (e.sku != "" && (f.sku == e.sku || f.certificate != "")))
  }

  predicate NoneCompete(kin: seq<nat>, entries: seq<Entry>) {
    forall i, j | 0 <= i < j < |entries| :: !Compete(kin, entries[i], entries[j])
  }

  predicate DistinctIds(entries: seq<Entry>) {
    forall i, j | 0 <= i < j < |entries| && entries[i].id != "" :: entries[i].id != entries[j].id
  }

  /** Every arrangement of the response leaves every database the same. */
  ghost predicate OrderFree(kin: seq<nat>, entries: seq<Entry>) {
    forall lines, p {:trigger StoreAll(lines, kin, p)} :: ValidKin(kin, lines) && multiset(p) == multiset(entries) ==>
      StoreAll(lines, kin, p) == StoreAll(lines, kin, entries)
  }

  /** Two entries that cannot be given the same line store the same in either order. */
  lemma Commute(lines: Lines, kin: seq<nat>, e: Entry, f: Entry)
    requires ValidKin(kin, lines) && !Compete(kin, e, f) && (e.id != "" ==> e.id != f.id)
    ensures StoreOne(StoreOne(lines, kin, e), kin, f) == StoreOne(StoreOne(lines, kin, f), kin, e)
  {
    if e.id != "" && f.id != "" {
      StoreLeavesTheOther(lines, kin, e, f);
      CompeteIsMutual(kin, e, f);
      StoreLeavesTheOther(lines, kin, f, e);
    }
  }

  lemma CompeteIsMutual(kin: seq<nat>, e: Entry, f: Entry)
    ensures Compete(kin, e, f) <==> Compete(kin, f, e)
  {
  }

  /** Storing e changes neither which line f finds nor whether f may be stored there. */
  lemma StoreLeavesTheOther(lines: Lines, kin: seq<nat>, e: Entry, f: Entry)
    requires ValidKin(kin, lines) && !Compete(kin, e, f) && e.id != "" && f.id != "" && e.id != f.id
    ensures
      var later := StoreOne(lines, kin, e);
      && Match(later, kin, f) == Match(lines, kin, f)
      && (Match(lines, kin, f).Some? ==>
            var m := Match(lines, kin, f).value;
            && later[m] == lines[m]
            && (HeldElsewhere(later, f.id, m) <==> HeldElsewhere(lines, f.id, m)))
  {
    var later := StoreOne(lines, kin, e);
    if later != lines {
      var l := Match(lines, kin, e).value;
      assert lines[l].number == "" && later == lines[l := lines[l].(number := e.id)];
      if !NamesItsLine(kin, f) {
        assert ByCertificate(later, kin, f) == ByCertificate(lines, kin, f);
        assert BySku(later, kin, f) == BySku(lines, kin, f);
      }
      if Match(lines, kin, f).Some? {
        var m := Match(lines, kin, f).value;
        assert m != l;
        if HeldElsewhere(lines, f.id, m) {
          var h :| h in lines && h != m && lines[h].number == f.id;
          assert later[h].number == f.id;
        }
        if HeldElsewhere(later, f.id, m) {
          var h :| h in later && h != m && later[h].number == f.id;
          assert lines[h].number == f.id;
        }
      }
    }
  }

  function Without(p: seq<Entry>, k: nat): seq<Entry>
    requires k < |p|
  {
    p[..k] + p[k + 1..]
  }

  lemma WithoutCounts(p: seq<Entry>, k: nat)
    requires k < |p|
    ensures multiset(p) == multiset{p[k]} + multiset(Without(p, k))
    ensures multiset([p[k]] + Without(p, k)) == multiset(p)
  {
    assert p == p[..k] + ([p[k]] + p[k + 1..]);
  }

  lemma WithoutStays(kin: seq<nat>, p: seq<Entry>, k: nat)
    requires k < |p| && NoneCompete(kin, p) && DistinctIds(p)
    ensures NoneCompete(kin, Without(p, k)) && DistinctIds(Without(p, k))
  {
    hide Compete;
    var rest := Without(p, k);
    assert forall i | 0 <= i < |rest| :: rest[i] == p[if i < k then i else i + 1];
  }

  /** Any entry can be taken first. */
  lemma {:induction false} TakenFirst(lines: Lines, kin: seq<nat>, p: seq<Entry>, k: nat)
    requires ValidKin(kin, lines) && k < |p| && NoneCompete(kin, p) && DistinctIds(p)
    ensures StoreAll(lines, kin, p) == StoreAll(StoreOne(lines, kin, p[k]), kin, Without(p, k))
    decreases k
  {
    hide Compete, StoreOne;
    if k == 0 {
      assert Without(p, 0) == p[1..];
    } else {
      StoreOneKeepsKeys(lines, kin, p[0]);
      StoreOneKeepsKeys(lines, kin, p[k]);
      TakenFirst(StoreOne(lines, kin, p[0]), kin, p[1..], k - 1);
      Commute(lines, kin, p[0], p[k]);
      assert p[1..][k - 1] == p[k];
      assert Without(p, k)[1..] == Without(p[1..], k - 1);
    }
  }

  lemma StoreOneKeepsKeys(lines: Lines, kin: seq<nat>, e: Entry)
    requires ValidKin(kin, lines)
    ensures ValidKin(kin, StoreOne(lines, kin, e))
  {
  }

  lemma CancelOne(a: multiset<Entry>, b: multiset<Entry>, e: Entry)
    requires multiset{e} + a == multiset{e} + b
    ensures a == b
  {
    assert a == (multiset{e} + a) - multiset{e};
  }

  lemma {:induction false} Rearranged(lines: Lines, kin: seq<nat>, p: seq<Entry>, q: seq<Entry>)
    requires ValidKin(kin, lines) && NoneCompete(kin, p) && DistinctIds(p) && multiset(p) == multiset(q)
    ensures StoreAll(lines, kin, p) == StoreAll(lines, kin, q)
    decreases |q|
  {
    hide NoneCompete, DistinctIds, StoreOne, Without, ValidKin;
    if q == [] {
      assert |p| == |multiset(p)| == 0;
    } else {
      assert q[0] in multiset(p);
      var k :| 0 <= k < |p| && p[k] == q[0];
      assert q == [q[0]] + q[1..];
      WithoutCounts(p, k);
      WithoutStays(kin, p, k);
      TakenFirst(lines, kin, p, k);
      StoreOneKeepsKeys(lines, kin, q[0]);
      CancelOne(multiset(Without(p, k)), multiset(q[1..]), q[0]);
      Rearranged(StoreOne(lines, kin, q[0]), kin, Without(p, k), q[1..]);
    }
  }

  /** A database that puts two competing entries after one line: no other line bears a
      certificate or a stock number, and none is numbered. */
  function Contested(kin: seq<nat>, l: nat, certificate: string, sku: string): Lines {
    map m | m in kin :: if m == l then Line("", certificate, sku, 0, false) else Line("", "", "", 0, false)
  }

  /** On such a database the entry, arriving first, takes l. */
  predicate Claims(kin: seq<nat>, e: Entry, l: nat, certificate: string, sku: string) {
    if NamesItsLine(kin, e) then e.ref == l
    else (e.certificate != "" && e.certificate == certificate) || (e.sku != "" && e.sku == sku)
  }

  lemma Contestable(kin: seq<nat>, e: Entry, f: Entry) returns (l: nat, certificate: string, sku: string)
    requires Compete(kin, e, f)
    ensures l in kin && Claims(kin, e, l, certificate, sku) && Claims(kin, f, l, certificate, sku)
  {
    if NamesItsLine(kin, e) {
      return e.ref, f.certificate, f.sku;
    } else if NamesItsLine(kin, f) {
      return f.ref, e.certificate, e.sku;
    } else {
      l := kin[0];
      certificate := if e.certificate != "" && (f.certificate == e.certificate || f.sku != "") then e.certificate
          else f.certificate;
      sku := if certificate == e.certificate && e.certificate != "" then f.sku else e.sku;
    }
  }

  /** Whichever of the two comes first takes the line. */
  lemma FirstTakesIt(kin: seq<nat>, e: Entry, rest: seq<Entry>, l: nat, certificate: string, sku: string)
    requires 0 !in kin && (forall i, j | 0 <= i < j < |kin| :: kin[i] != kin[j])
    requires l in kin && e.id != "" && Claims(kin, e, l, certificate, sku)
    ensures StoreAll(Contested(kin, l, certificate, sku), kin, [e] + rest)[l].number == e.id
  {
    var lines := Contested(kin, l, certificate, sku);
    ClaimIsMatched(kin, e, l, certificate, sku);
    assert !HeldElsewhere(lines, e.id, l);
    assert ([e] + rest)[1..] == rest;
    NeverOverwrites(StoreOne(lines, kin, e), kin, rest);
  }

  lemma ClaimIsMatched(kin: seq<nat>, e: Entry, l: nat, certificate: string, sku: string)
    requires l in kin && Claims(kin, e, l, certificate, sku)
    ensures Match(Contested(kin, l, certificate, sku), kin, e) == Some(l)
  {
    var lines := Contested(kin, l, certificate, sku);
    assert forall m | m in ByCertificate(lines, kin, e) :: m == l;
    assert forall m | m in BySku(lines, kin, e) :: m == l;
    if !NamesItsLine(kin, e) {
      assert l in ByCertificate(lines, kin, e) || l in BySku(lines, kin, e);
    }
  }

  lemma CompetitionShows(kin: seq<nat>, entries: seq<Entry>, i: nat, j: nat)
    requires 0 !in kin && (forall i, j | 0 <= i < j < |kin| :: kin[i] != kin[j])
    requires DistinctIds(entries) && i < j < |entries| && Compete(kin, entries[i], entries[j])
    ensures !OrderFree(kin, entries)
  {
    var l, certificate, sku := Contestable(kin, entries[i], entries[j]);
    assert entries[i].id != "" && entries[j].id != "";
    hide Compete, Claims, StoreAll, Without, OrderFree;
    var lines := Contested(kin, l, certificate, sku);
    FirstTakesIt(kin, entries[i], Without(entries, i), l, certificate, sku);
    FirstTakesIt(kin, entries[j], Without(entries, j), l, certificate, sku);
    WithoutCounts(entries, i);
    WithoutCounts(entries, j);
    TwoOutcomes(kin, entries, lines, [entries[i]] + Without(entries, i), [entries[j]] + Without(entries, j));
  }

  lemma TwoOutcomes(kin: seq<nat>, entries: seq<Entry>, lines: Lines, p: seq<Entry>, q: seq<Entry>)
    requires ValidKin(kin, lines) && multiset(p) == multiset(entries) && multiset(q) == multiset(entries)
    requires StoreAll(lines, kin, p) != StoreAll(lines, kin, q)
    ensures !OrderFree(kin, entries)
  {
    hide StoreAll;
  }

  /** For a response with distinct ids, the order of its entries is immaterial to every
      database if and only if no two of them compete for a line. */
  lemma OrderFreeExactlyWhenNoneCompete(kin: seq<nat>, entries: seq<Entry>)
    requires 0 !in kin && (forall i, j | 0 <= i < j < |kin| :: kin[i] != kin[j])
    requires DistinctIds(entries)
    ensures OrderFree(kin, entries) <==> NoneCompete(kin, entries)
  {
    if NoneCompete(kin, entries) {
      forall lines, p {:trigger StoreAll(lines, kin, p)} | ValidKin(kin, lines) && multiset(p) == multiset(entries)
        ensures StoreAll(lines, kin, p) == StoreAll(lines, kin, entries)
      {
        Rearranged(lines, kin, entries, p);
      }
    } else {
      var i, j :| 0 <= i < j < |entries| && Compete(kin, entries[i], entries[j]);
      CompetitionShows(kin, entries, i, j);
    }
  }

  /** The shape the website is asked for: every entry names a line of the order, no line twice. */
  lemma DistinctReferencesSuffice(kin: seq<nat>, entries: seq<Entry>)
    requires 0 !in kin && (forall i, j | 0 <= i < j < |kin| :: kin[i] != kin[j])
    requires DistinctIds(entries) && (forall i | 0 <= i < |entries| :: entries[i].ref in kin)
    requires forall i, j | 0 <= i < j < |entries| :: entries[i].ref != entries[j].ref
    ensures OrderFree(kin, entries)
  {
    OrderFreeExactlyWhenNoneCompete(kin, entries);
  }

  /** Distinct references and distinct ids alone do not suffice: a reference to no line of the
      order falls through to the certificate, and may take the line another entry names. */
  lemma StrayReferenceMakesOrderMatter()
    ensures
      var stray, named := Entry("90000099", 99, "IGI-1", ""), Entry("90000005", 5, "IGI-1", "");
      var lines: Lines := map[5 := Line("", "IGI-1", "", 0, false)];
      && StoreAll(lines, [5], [stray, named])[5].number == "90000099"
      && StoreAll(lines, [5], [named, stray])[5].number == "90000005"
  {
    var stray, named := Entry("90000099", 99, "IGI-1", ""), Entry("90000005", 5, "IGI-1", "");
    hide StoreAll;
    assert Contested([5], 5, "IGI-1", "") == map[5 := Line("", "IGI-1", "", 0, false)];
    FirstTakesIt([5], stray, [named], 5, "IGI-1", "");
    FirstTakesIt([5], named, [stray], 5, "IGI-1", "");
    assert [stray] + [named] == [stray, named] && [named] + [stray] == [named, stray];
  }

  // ── When the push is done ────────────────────────────────────

  ghost predicate Held(lines: Lines, id: string) {
    exists m :: m in lines && lines[m].number == id
  }

  /** An entry that names a line of the order and brings an id nobody holds leaves that line
      numbered, whatever other entries come with it. */
  lemma {:induction false} AnsweredIsNumbered(lines: Lines, kin: seq<nat>, entries: seq<Entry>, k: nat)
    requires ValidKin(kin, lines) && DistinctIds(entries) && k < |entries|
    requires NamesItsLine(kin, entries[k]) && entries[k].id != "" && !Held(lines, entries[k].id)
    ensures StoreAll(lines, kin, entries)[entries[k].ref].number != ""
    decreases k
  {
    var later := StoreOne(lines, kin, entries[0]);
    if k == 0 {
      assert !HeldElsewhere(lines, entries[0].id, entries[0].ref);
      NeverOverwrites(later, kin, entries[1..]);
    } else {
      assert forall m | m in later :: later[m].number == lines[m].number || later[m].number == entries[0].id;
      assert entries[1..][k - 1] == entries[k];
      AnsweredIsNumbered(later, kin, entries[1..], k - 1);
    }
  }

  predicate Answers(entries: seq<Entry>, l: nat) {
    exists k :: 0 <= k < |entries| && entries[k].ref == l && entries[k].id != ""
  }

  /** Where every usable entry names its line, no other line is numbered. */
  lemma {:induction false} NumberedWasAnswered(lines: Lines, kin: seq<nat>, entries: seq<Entry>, l: nat)
    requires ValidKin(kin, lines) && l in lines && lines[l].number == ""
    requires forall k | 0 <= k < |entries| && entries[k].id != "" :: NamesItsLine(kin, entries[k])
    requires StoreAll(lines, kin, entries)[l].number != ""
    ensures Answers(entries, l)
    decreases |entries|
  {
    if entries != [] {
      var later := StoreOne(lines, kin, entries[0]);
      if later[l].number != "" {
        assert entries[0].ref == l;
      } else {
        NumberedWasAnswered(later, kin, entries[1..], l);
        var k :| 0 <= k < |entries[1..]| && entries[1..][k].ref == l && entries[1..][k].id != "";
        assert entries[k + 1].ref == l;
      }
    }
  }

  ghost predicate Usable(lines: Lines, kin: seq<nat>, entries: seq<Entry>) {
    && DistinctIds(entries)
    && (forall k | 0 <= k < |entries| && entries[k].id != "" ::
        NamesItsLine(kin, entries[k]) && !Held(lines, entries[k].id))
  }

  /** Some line of l's entry was numbered before, or is named by the answer. */
  ghost predicate Covered(lines: Lines, kin: seq<nat>, entries: seq<Entry>, l: nat)
    requires l in lines
  {
    exists m :: m in KinOf(lines, kin, true, KeyOf(lines, l, true)) && (lines[m].number != "" || Answers(entries, m))
  }

  /** An order still needs its push exactly while some live line's entry is neither numbered
      nor answered. */
  lemma PushEndsExactlyWhenAllAreAnswered(lines: Lines, kin: seq<nat>, entries: seq<Entry>)
    requires ValidKin(kin, lines) && Usable(lines, kin, entries)
    ensures !Unanswered(StoreAll(lines, kin, entries), kin) <==>
            forall l | l in kin && !lines[l].dead :: Covered(lines, kin, entries, l)
  {
    var later := StoreAll(lines, kin, entries);
    NeverOverwrites(lines, kin, entries);
    forall l | l in kin
      ensures Numbered(later, KinOf(later, kin, true, KeyOf(later, l, true))) != {} <==> Covered(lines, kin, entries, l)
    {
      var key := KeyOf(lines, l, true);
      assert KinOf(later, kin, true, key) == KinOf(lines, kin, true, key);
      forall m | m in KinOf(lines, kin, true, key)
        ensures later[m].number != "" <==> lines[m].number != "" || Answers(entries, m)
      {
        if Answers(entries, m) {
          var k :| 0 <= k < |entries| && entries[k].ref == m && entries[k].id != "";
          AnsweredIsNumbered(lines, kin, entries, k);
        } else if lines[m].number == "" && later[m].number != "" {
          NumberedWasAnswered(lines, kin, entries, m);
        }
      }
      if Covered(lines, kin, entries, l) {
        var m :| m in KinOf(lines, kin, true, key) && (lines[m].number != "" || Answers(entries, m));
        assert m in Numbered(later, KinOf(later, kin, true, key));
      }
      if Numbered(later, KinOf(later, kin, true, key)) != {} {
        var m :| m in Numbered(later, KinOf(later, kin, true, key));
        assert m in KinOf(lines, kin, true, key);
      }
    }
  }

  /** A payload of either shape, parcel by parcel or line by line, once every entry of it has
      been answered. */
  lemma AnsweredPayloadEndsThePush(lines: Lines, kin: seq<nat>, byParcel: bool, gs: seq<Group>, entries: seq<Entry>)
    requires ValidKin(kin, lines) && Groups(gs, lines, kin, byParcel) && Usable(lines, kin, entries)
    requires forall i | 0 <= i < |gs| :: Answers(entries, gs[i].head)
    ensures !Unanswered(StoreAll(lines, kin, entries), kin)
  {
    forall l | l in kin && !lines[l].dead
      ensures Covered(lines, kin, entries, l)
    {
      var i :| 0 <= i < |gs| && gs[i].key == KeyOf(lines, l, byParcel);
      assert IsGroup(gs[i], lines, kin, byParcel);
      assert gs[i].head in KinOf(lines, kin, byParcel, gs[i].key);
      assert gs[i].head in KinOf(lines, kin, true, KeyOf(lines, l, true));
    }
    PushEndsExactlyWhenAllAreAnswered(lines, kin, entries);
  }

  // ── An entry keeps its line for life ─────────────────────────

  /** The lines, and the heads of the payload whose answer is still out. */
  datatype Push = Push(lines: Lines, sent: Option<set<nat>>)

  /** A payload goes out, parcel by parcel or, with the switch off, line by line, built from the
      lines as they stand; it is answered or lost; and in between, as at any time, slices die
      and come back. */
  datatype Event = Sent(byParcel: bool) | Filed(entries: seq<Entry>) | Lost | Marked(line: nat, dead: bool)

  ghost predicate IsHead(lines: Lines, kin: seq<nat>, byParcel: bool, l: nat)
    requires ValidKin(kin, lines)
  {
    && l in kin
    && Members(lines, kin, byParcel, KeyOf(lines, l, byParcel)) != {}
    && Head(lines, kin, byParcel, KeyOf(lines, l, byParcel)) == l
  }

  /** What a payload refers to: the head of every entry some live line belongs to. */
  ghost function Heads(lines: Lines, kin: seq<nat>, byParcel: bool): set<nat>
    requires ValidKin(kin, lines)
  {
    set l | l in kin && IsHead(lines, kin, byParcel, l)
  }

  /** The answer names heads the payload was sent with, alive or not. */
  ghost predicate NamesSent(sent: set<nat>, entries: seq<Entry>) {
    forall k | 0 <= k < |entries| && entries[k].id != "" :: entries[k].ref in sent
  }

  /** One answer is out at a time. */
  ghost predicate Allowed(p: Push, kin: seq<nat>, e: Event) {
    match e
    case Sent(_) => p.sent == None
    case Filed(entries) => p.sent.Some? && NamesSent(p.sent.value, entries)
    case Lost => true
    case Marked(l, _) => l in p.lines
  }

  ghost function Step(p: Push, kin: seq<nat>, e: Event): (r: Push)
    requires ValidKin(kin, p.lines) && Allowed(p, kin, e)
    ensures ValidKin(kin, r.lines)
  {
    match e
    case Sent(byParcel) => p.(sent := Some(Heads(p.lines, kin, byParcel)))
    case Filed(entries) => Push(StoreAll(p.lines, kin, entries), None)
    case Lost => p.(sent := None)
    case Marked(l, dead) => p.(lines := p.lines[l := p.lines[l].(dead := dead)])
  }

  ghost predicate IsRun(p: Push, kin: seq<nat>, es: seq<Event>)
    requires ValidKin(kin, p.lines)
    decreases |es|
  {
    es == [] || (Allowed(p, kin, es[0]) && IsRun(Step(p, kin, es[0]), kin, es[1..]))
  }

  ghost function After(p: Push, kin: seq<nat>, es: seq<Event>): (r: Push)
    requires ValidKin(kin, p.lines) && IsRun(p, kin, es)
    ensures ValidKin(kin, r.lines)
    decreases |es|
  {
    if es == [] then p else After(Step(p, kin, es[0]), kin, es[1..])
  }

  /** Whatever an answer names is a line of the order, so only those are numbered. */
  lemma NumberedOrNamed(lines: Lines, kin: seq<nat>, entries: seq<Entry>, sent: set<nat>, l: nat)
    requires ValidKin(kin, lines) && l in kin && (forall h | h in sent :: h in kin) && NamesSent(sent, entries)
    requires StoreAll(lines, kin, entries)[l].number != ""
    ensures lines[l].number != "" || l in sent
  {
    if lines[l].number == "" {
      forall k | 0 <= k < |entries| && entries[k].id != ""
        ensures NamesItsLine(kin, entries[k])
      {
        assert entries[k].ref in sent && entries[k].ref in kin;
      }
      NumberedWasAnswered(lines, kin, entries, l);
    }
  }

  lemma StepKeepsNumbers(p: Push, kin: seq<nat>, e: Event, l: nat)
    requires ValidKin(kin, p.lines) && Allowed(p, kin, e) && l in kin
    ensures
      var q := Step(p, kin, e).lines;
      && KeyOf(q, l, true) == KeyOf(p.lines, l, true)
      && (p.lines[l].number != "" ==> q[l].number == p.lines[l].number)
  {
    if e.Filed? {
      NeverOverwrites(p.lines, kin, e.entries);
    }
  }

  /** A payload whose answer is lost, or answered without a single id, leaves the lines as they
      were, and a new one goes out that refers to the same heads. */
  lemma UnansweredIsSentAgain(p: Push, kin: seq<nat>, byParcel: bool, entries: seq<Entry>)
    requires ValidKin(kin, p.lines) && p.sent == Some(Heads(p.lines, kin, byParcel))
    requires forall k | 0 <= k < |entries| :: entries[k].id == ""
    ensures Allowed(p, kin, Lost) && Allowed(p, kin, Filed(entries))
    ensures
      var lost, filed := Step(p, kin, Lost), Step(p, kin, Filed(entries));
      && lost == filed == Push(p.lines, None)
      && Allowed(lost, kin, Sent(byParcel)) && Step(lost, kin, Sent(byParcel)) == p
  {
    WithoutIdsNothingIsFiled(p.lines, kin, entries);
  }

  lemma {:induction false} WithoutIdsNothingIsFiled(lines: Lines, kin: seq<nat>, entries: seq<Entry>)
    requires ValidKin(kin, lines) && forall k | 0 <= k < |entries| :: entries[k].id == ""
    ensures StoreAll(lines, kin, entries) == lines
    decreases |entries|
  {
    if entries != [] {
      WithoutIdsNothingIsFiled(lines, kin, entries[1..]);
    }
  }

  // ── Payloads parcel by parcel: one number an entry ───────────

  /** At most one line of each entry holds a number. */
  ghost predicate OnePerEntry(lines: Lines, kin: seq<nat>)
    requires ValidKin(kin, lines)
  {
    forall l, m | l in kin && m in kin && lines[l].number != "" && lines[m].number != "" &&
        KeyOf(lines, l, true) == KeyOf(lines, m, true) :: l == m
  }

  /** The heads a payload went out with: one an entry, and the numbered line where there is one. */
  ghost predicate SentFits(lines: Lines, kin: seq<nat>, sent: set<nat>)
    requires ValidKin(kin, lines)
  {
    && (forall h | h in sent :: h in kin)
    && forall l, h | l in kin && h in sent && KeyOf(lines, l, true) == KeyOf(lines, h, true) &&
        (l in sent || lines[l].number != "") :: l == h
  }

  ghost predicate PushInv(p: Push, kin: seq<nat>) {
    && ValidKin(kin, p.lines) && OnePerEntry(p.lines, kin)
    && (p.sent.Some? ==> SentFits(p.lines, kin, p.sent.value))
  }

  lemma SendingFits(lines: Lines, kin: seq<nat>)
    requires ValidKin(kin, lines) && OnePerEntry(lines, kin)
    ensures SentFits(lines, kin, Heads(lines, kin, true))
  {
    forall l, h | l in kin && h in Heads(lines, kin, true) && KeyOf(lines, l, true) == KeyOf(lines, h, true) &&
        lines[l].number != ""
      ensures l == h
    {
      assert l in Numbered(lines, KinOf(lines, kin, true, KeyOf(lines, l, true)));
    }
  }

  lemma FiledKeepsOne(lines: Lines, kin: seq<nat>, entries: seq<Entry>, sent: set<nat>)
    requires ValidKin(kin, lines) && OnePerEntry(lines, kin) && SentFits(lines, kin, sent) && NamesSent(sent, entries)
    ensures OnePerEntry(StoreAll(lines, kin, entries), kin)
  {
    var later := StoreAll(lines, kin, entries);
    NeverOverwrites(lines, kin, entries);
    forall l, m | l in kin && m in kin && later[l].number != "" && later[m].number != "" &&
        KeyOf(later, l, true) == KeyOf(later, m, true)
      ensures l == m
    {
      NumberedOrNamed(lines, kin, entries, sent, l);
      NumberedOrNamed(lines, kin, entries, sent, m);
      assert KeyOf(lines, l, true) == KeyOf(lines, m, true);
    }
  }

  /** As long as payloads go out parcel by parcel no entry gets a second number. */
  lemma StepKeepsPushInv(p: Push, kin: seq<nat>, e: Event)
    requires PushInv(p, kin) && Allowed(p, kin, e) && e != Sent(false)
    ensures PushInv(Step(p, kin, e), kin)
  {
    match e
    case Sent(_) => SendingFits(p.lines, kin);
    case Filed(entries) => FiledKeepsOne(p.lines, kin, entries, p.sent.value);
    case Lost =>
    case Marked(_, _) =>
  }

  lemma {:induction false} OneNumberPerEntry(p: Push, kin: seq<nat>, es: seq<Event>)
    requires PushInv(p, kin) && IsRun(p, kin, es) && Sent(false) !in es
    ensures OnePerEntry(After(p, kin, es).lines, kin)
    decreases |es|
  {
    if es != [] {
      assert es[0] in es && forall e | e in es[1..] :: e in es;
      StepKeepsPushInv(p, kin, es[0]);
      OneNumberPerEntry(Step(p, kin, es[0]), kin, es[1..]);
    }
  }

  // ── Payloads of either shape: who heads the parcel ───────────

  /** l holds a number, and no line of its parcel that comes before it does. */
  ghost predicate Leads(lines: Lines, kin: seq<nat>, l: nat) {
    && l in kin && l in lines && lines[l].number != ""
    && forall m | m in kin && m in lines && m < l && KeyOf(lines, m, true) == KeyOf(lines, l, true) ::
        lines[m].number == ""
  }

  /** The numbered line that leads is the one the parcel is pinned to. */
  lemma LeaderIsHead(lines: Lines, kin: seq<nat>, l: nat)
    requires ValidKin(kin, lines) && l in kin && lines[l].number != ""
    requires Members(lines, kin, true, KeyOf(lines, l, true)) != {}
    ensures IsHead(lines, kin, true, l) <==> Leads(lines, kin, l)
  {
    var key := KeyOf(lines, l, true);
    var numbered := Numbered(lines, KinOf(lines, kin, true, key));
    assert l in numbered;
    if !Leads(lines, kin, l) {
      var m :| m in kin && m < l && KeyOf(lines, m, true) == key && lines[m].number != "";
      assert m in numbered;
    }
  }

  /** No line of l's parcel that comes before it is waiting for an answer. */
  ghost predicate LeadInv(p: Push, kin: seq<nat>, l: nat) {
    && ValidKin(kin, p.lines) && Leads(p.lines, kin, l)
    && (p.sent.Some? ==>
        forall m | m in p.sent.value :: m in kin && (KeyOf(p.lines, m, true) == KeyOf(p.lines, l, true) ==> l <= m))
  }

  /** A live line of l's parcel comes before l. */
  ghost predicate LiveBefore(lines: Lines, kin: seq<nat>, l: nat)
    requires l in lines
  {
    exists m :: m in kin && m in lines && m < l && !lines[m].dead && KeyOf(lines, m, true) == KeyOf(lines, l, true)
  }

  /** A payload line by line puts every live line up for a number. */
  ghost predicate MayUnseat(p: Push, kin: seq<nat>, e: Event, l: nat)
    requires l in p.lines
  {
    e == Sent(false) && LiveBefore(p.lines, kin, l)
  }

  lemma StepKeepsLeader(p: Push, kin: seq<nat>, e: Event, l: nat)
    requires LeadInv(p, kin, l) && Allowed(p, kin, e) && !MayUnseat(p, kin, e, l)
    ensures LeadInv(Step(p, kin, e), kin, l)
  {
    match e
    case Sent(byParcel) => SendingKeepsLeader(p.lines, kin, byParcel, l);
    case Filed(entries) => FilingKeepsLeader(p.lines, kin, entries, p.sent.value, l);
    case Lost =>
    case Marked(_, _) =>
  }

  lemma SendingKeepsLeader(lines: Lines, kin: seq<nat>, byParcel: bool, l: nat)
    requires ValidKin(kin, lines) && Leads(lines, kin, l) && (byParcel || !LiveBefore(lines, kin, l))
    ensures forall m | m in Heads(lines, kin, byParcel) ::
        m in kin && (KeyOf(lines, m, true) == KeyOf(lines, l, true) ==> l <= m)
  {
    forall m | m in Heads(lines, kin, byParcel) && KeyOf(lines, m, true) == KeyOf(lines, l, true)
      ensures l <= m
    {
      if byParcel {
        assert l in Numbered(lines, KinOf(lines, kin, true, KeyOf(lines, l, true)));
      } else {
        assert Members(lines, kin, false, Single(m)) <= {m};
      }
    }
  }

  lemma FilingKeepsLeader(lines: Lines, kin: seq<nat>, entries: seq<Entry>, sent: set<nat>, l: nat)
    requires ValidKin(kin, lines) && Leads(lines, kin, l) && NamesSent(sent, entries)
    requires forall m | m in sent :: m in kin && (KeyOf(lines, m, true) == KeyOf(lines, l, true) ==> l <= m)
    ensures Leads(StoreAll(lines, kin, entries), kin, l)
  {
    var later := StoreAll(lines, kin, entries);
    NeverOverwrites(lines, kin, entries);
    forall m | m in kin && m < l && KeyOf(later, m, true) == KeyOf(later, l, true)
      ensures later[m].number == ""
    {
      assert KeyOf(lines, m, true) == KeyOf(lines, l, true);
      if later[m].number != "" {
        NumberedOrNamed(lines, kin, entries, sent, m);
      }
    }
  }

  ghost predicate NeverUnseated(p: Push, kin: seq<nat>, es: seq<Event>, l: nat)
    requires ValidKin(kin, p.lines) && IsRun(p, kin, es) && l in kin
    decreases |es|
  {
    es == [] || (!MayUnseat(p, kin, es[0], l) && NeverUnseated(Step(p, kin, es[0]), kin, es[1..], l))
  }

  /** Over any run of payloads of either shape, answered and lost, and of slices dying and coming
      back at any time - a head between the push and the answer included - a number stays with
      its line; and the line a parcel is pinned to stays the one, alive or not, as long as no
      payload line by line goes out while a live line of the parcel comes before it. */
  lemma {:induction false} IdentityIsForLife(p: Push, kin: seq<nat>, es: seq<Event>, l: nat)
    requires ValidKin(kin, p.lines) && IsRun(p, kin, es) && l in kin && p.lines[l].number != ""
    ensures
      var after := After(p, kin, es).lines;
      && after[l].number == p.lines[l].number && KeyOf(after, l, true) == KeyOf(p.lines, l, true)
      && (LeadInv(p, kin, l) && NeverUnseated(p, kin, es, l) &&
          Members(after, kin, true, KeyOf(after, l, true)) != {} ==>
            IsHead(after, kin, true, l))
    decreases |es|
  {
    if es == [] {
      if LeadInv(p, kin, l) && Members(p.lines, kin, true, KeyOf(p.lines, l, true)) != {} {
        LeaderIsHead(p.lines, kin, l);
      }
    } else {
      StepKeepsNumbers(p, kin, es[0], l);
      if LeadInv(p, kin, l) && NeverUnseated(p, kin, es, l) {
        StepKeepsLeader(p, kin, es[0], l);
      }
      IdentityIsForLife(Step(p, kin, es[0]), kin, es[1..], l);
    }
  }

  // ── And when it can be lost ──────────────────────────────────

  lemma {:induction false} FreshId(lines: Lines, ls: set<nat>) returns (id: string)
    requires ls <= lines.Keys
    ensures id != "" && forall m | m in ls :: |lines[m].number| < |id|
    decreases ls
  {
    if ls == {} {
      return "9";
    }
    var l :| l in ls;
    var shorter := FreshId(lines, ls - {l});
    id := if |lines[l].number| < |shorter| then shorter else lines[l].number + "9";
  }

  /** The answer to the payload now sent may take the parcel away from the line it is pinned to
      if and only if the payload is line by line and a live line of the parcel comes first. */
  lemma HeadCanBeLostExactlyWhen(p: Push, kin: seq<nat>, byParcel: bool, l: nat)
    requires ValidKin(kin, p.lines) && p.sent == None && Leads(p.lines, kin, l)
    ensures
      (exists entries :: NamesSent(Heads(p.lines, kin, byParcel), entries) &&
          !Leads(StoreAll(p.lines, kin, entries), kin, l)) <==>
      !byParcel && LiveBefore(p.lines, kin, l)
  {
    var lines, sent := p.lines, Heads(p.lines, kin, byParcel);
    if !byParcel && LiveBefore(lines, kin, l) {
      var m :| m in kin && m < l && !lines[m].dead && KeyOf(lines, m, true) == KeyOf(lines, l, true);
      LiveLineIsItsOwnHead(lines, kin, m);
      var id := FreshId(lines, lines.Keys);
      var entry := Entry(id, m, "", "");
      AnsweredFirst(lines, kin, entry);
      assert NamesSent(sent, [entry]) && !Leads(StoreAll(lines, kin, [entry]), kin, l);
    } else {
      SendingKeepsLeader(lines, kin, byParcel, l);
      forall entries | NamesSent(sent, entries)
        ensures Leads(StoreAll(lines, kin, entries), kin, l)
      {
        FilingKeepsLeader(lines, kin, entries, sent, l);
      }
    }
  }

  lemma LiveLineIsItsOwnHead(lines: Lines, kin: seq<nat>, m: nat)
    requires ValidKin(kin, lines) && m in kin && !lines[m].dead
    ensures m in Heads(lines, kin, false)
  {
    assert m in Members(lines, kin, false, Single(m));
    assert KinOf(lines, kin, false, Single(m)) == {m};
  }

  /** Two slices of parcel 9. */
  function TwoSlices(): Lines {
    map[4 := Line("", "", "", 9, false), 5 := Line("", "", "", 9, false)]
  }

  lemma FourIsHead()
    ensures IsHead(TwoSlices(), [4, 5], true, 4)
  {
    assert Members(TwoSlices(), [4, 5], true, Parcel(9)) == {4, 5};
    assert Numbered(TwoSlices(), KinOf(TwoSlices(), [4, 5], true, Parcel(9))) == {};
  }

  /** A head that dies between the push and the answer is numbered all the same, and the parcel
      keeps it as its head. */
  lemma DeadHeadStillAnswered(id: string)
    requires id != ""
    ensures
      var p, kin := Push(TwoSlices(), None), [4, 5];
      && PushInv(p, kin) && Allowed(p, kin, Sent(true))
      && var sent := Step(p, kin, Sent(true));
      && Allowed(sent, kin, Marked(4, true))
      && var dead := Step(sent, kin, Marked(4, true));
      && Allowed(dead, kin, Filed([Entry(id, 4, "", "")]))
      && var filed := Step(dead, kin, Filed([Entry(id, 4, "", "")]));
      && filed.lines[4] == Line(id, "", "", 9, true) && IsHead(filed.lines, kin, true, 4)
  {
    var p, kin := Push(TwoSlices(), None), [4, 5];
    FourIsHead();
    hide IsHead;
    var sent := Step(p, kin, Sent(true));
    assert 4 in sent.sent.value;
    var dead := Step(sent, kin, Marked(4, true));
    AnsweredFirst(dead.lines, kin, Entry(id, 4, "", ""));
    var filed := Step(dead, kin, Filed([Entry(id, 4, "", "")]));
    assert 5 in Members(filed.lines, kin, true, Parcel(9));
    LeaderIsHead(filed.lines, kin, 4);
  }

  lemma AnsweredFirst(lines: Lines, kin: seq<nat>, e: Entry)
    requires ValidKin(kin, lines) && NamesItsLine(kin, e) && e.id != "" && lines[e.ref].number == "" &&
        !Held(lines, e.id)
    ensures StoreAll(lines, kin, [e]) == lines[e.ref := lines[e.ref].(number := e.id)]
  {
    assert !HeldElsewhere(lines, e.id, e.ref);
    assert [e][1..] == [];
  }
}
