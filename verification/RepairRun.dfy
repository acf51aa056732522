/** The repair as the program runs it: three passes over rows and records, updating both in
    place, proved to compute NumberingRepair.Repair. */
module RepairRun {
  import opened Basics
  import opened Numerals
  import opened DocSeries
  import opened NumberingRepair

  class Desk {
    const series: map<Key, Series>
    var counters: seq<Counter>
    var fields: seq<Field>

    constructor (r: Registry)
      ensures series == r.series && counters == r.counters && fields == r.fields
    {
      series, counters, fields := r.series, r.counters, r.fields;
    }

    ghost function Contents(): Registry
      reads this
    {
      Registry(series, counters, fields)
    }

    /** Pass 1: the first row of each prefix stays and takes the group's furthest number. */
    method MergeCounters() returns (merged: nat)
      modifies this`counters
      ensures counters == Merged(old(counters))
      ensures merged == |old(counters)| - |counters|
    {
      var kept: seq<Counter> := [];
      merged := 0;
      for i := 0 to |counters|
        invariant counters == old(counters)
        invariant kept == Merged(counters[..i]) && merged == i - |kept|
      {
        assert counters[..i + 1][..i] == counters[..i];
        var c := counters[i];
        var k := Furthest(kept, c.prefix);
        if k == -1 {
          kept := kept + [c];
        } else {
          kept := kept[k := kept[k].(next := Max(kept[k].next, c.next))];
          merged := merged + 1;
        }
      }
      assert counters[..|counters|] == counters;
      counters := kept;
    }

    /** The number a record ends up with, given the numbers of the records before it. */
    method NumberFor(dt: DocType, d: Document, ghost before: Progress, seen: set<string>) returns (r: Result<string>)
      requires counters == before.counters && forall x :: x in seen <==> x in before.numbers
      modifies this`counters
      ensures r.Err? <==> RenumberOne(series, dt, before, d).Err?
      ensures r.Ok? ==>
        var after := RenumberOne(series, dt, before, d);
        after.Ok? && after.value.counters == counters && after.value.numbers == before.numbers + [r.value]
    {
      if d.number !in seen {
        return Ok(d.number);
      }
      if (dt, d.channel) !in series {
        return Err;
      }
      var drawn := Draw(counters, series[(dt, d.channel)]);
      if drawn.Err? {
        return Err;
      }
      counters := drawn.value.0;
      return Ok(drawn.value.1);
    }

    /** Pass 2 on one field: who comes second to a number gets a new one. */
    method RenumberField(f: Field) returns (r: Result<Field>, ghost clash: bool)
      modifies this`counters
      ensures r.Err? <==> Renumber(series, old(counters), f, |f.records|).Err?
      ensures r.Ok? ==>
        var p := Renumber(series, old(counters), f, |f.records|).value;
        |p.numbers| == |f.records| && r.value == WithNumbers(f, p.numbers) && counters == p.counters && clash == p.clash
    {
      ghost var start := counters;
      ghost var progress := Progress(counters, [], false);
      var numbers: seq<string> := [];
      var seen: set<string> := {};
      assert Renumber(series, start, f, 0) == Ok(progress);
      hide Renumber, RenumberOne, WithNumbers;
      for i := 0 to |f.records|
        invariant progress.numbers == numbers && |numbers| == i && progress.counters == counters
        invariant forall x :: x in seen <==> x in numbers
        invariant Renumber(series, start, f, i) == Ok(progress)
      {
        var number := NumberFor(f.docType, f.records[i], progress, seen);
        NextRecord(series, start, f, i);
        if number.Err? {
          ErrSpreads(series, start, f, i + 1, |f.records|);
          return Err, progress.clash;
        }
        progress := RenumberOne(series, f.docType, progress, f.records[i]).value;
        seen := seen + {number.value};
        numbers := numbers + [number.value];
      }
      return Ok(WithNumbers(f, numbers)), progress.clash;
    }

    /** Pass 3 on one field: each counter goes past the highest number issued under it. */
    method AdvanceCounters(f: Field)
      modifies this`counters
      ensures counters == Advanced(old(counters), f)
    {
      var before := counters;
      for i := 0 to |before|
        invariant |counters| == |before|
        invariant forall j | 0 <= j < |before| :: counters[j] == if j < i then Advanced(before, f)[j] else before[j]
      {
        var top := HighestUnder(f, counters[i].prefix);
        if counters[i].next <= top {
          counters := counters[i := counters[i].(next := top + 1)];
        }
      }
    }

    method HighestUnder(f: Field, prefix: string) returns (top: int)
      ensures top == Top(f.records, prefix)
    {
      hide Issued;
      top := -1;
      for i := 0 to |f.records|
        invariant top == Top(f.records[..i], prefix)
      {
        assert f.records[..i + 1][..i] == f.records[..i];
        match Issued(f.records[i].number) {
          case Some((p, k)) =>
            if p == prefix && k > top {
              top := k;
            }
          case None =>
        }
      }
      assert f.records[..|f.records|] == f.records;
    }

    /** The whole repair; a refused draw takes everything back. */
    method RepairNumbering() returns (done: bool)
      modifies this
      ensures done <==> Repair(old(Contents())).Ok?
      ensures Contents() == if done then Repair(old(Contents())).value.0 else old(Contents())
    {
      hide Merged, Advanced, Renumber, WithNumbers;
      ghost var start := Contents();
      var rows, records := counters, fields;
      var merged := MergeCounters();
      var renumbered: seq<Field> := [];
      ghost var clash := false;
      for i := 0 to |records|
        invariant fields == records && |renumbered| == i
        invariant RenumberFields(start, Merged(rows), i) == Ok(Pass(counters, renumbered, clash))
      {
        ghost var before := counters;
        var field, clashed := RenumberField(records[i]);
        if field.Err? {
          FieldErrSpreads(start, Merged(rows), i + 1, |records|);
          counters := rows;
          return false;
        }
        clash := clash || clashed;
        renumbered := renumbered + [field.value];
      }
      fields := renumbered;
      ghost var passed := counters;
      for i := 0 to |renumbered|
        invariant fields == renumbered
        invariant counters == AdvancedAll(passed, renumbered[..i])
      {
        assert renumbered[..i + 1][..i] == renumbered[..i];
        AdvanceCounters(renumbered[i]);
      }
      assert renumbered[..|renumbered|] == renumbered;
      return true;
    }
  }

  lemma NextRecord(series: map<Key, Series>, cs: seq<Counter>, f: Field, i: nat)
    requires i < |f.records| && Renumber(series, cs, f, i).Ok?
    ensures Renumber(series, cs, f, i + 1) ==
        RenumberOne(series, f.docType, Renumber(series, cs, f, i).value, f.records[i])
  {
  }

  lemma {:induction false} ErrSpreads(series: map<Key, Series>, cs: seq<Counter>, f: Field, n: nat, m: nat)
    requires n <= m <= |f.records| && Renumber(series, cs, f, n).Err?
    ensures Renumber(series, cs, f, m).Err?
    decreases m
  {
    if n < m {
      ErrSpreads(series, cs, f, n, m - 1);
    }
  }

  lemma {:induction false} FieldErrSpreads(r: Registry, cs: seq<Counter>, n: nat, m: nat)
    requires n <= m <= |r.fields| && RenumberFields(r, cs, n).Err?
    ensures RenumberFields(r, cs, m).Err?
    decreases m
  {
    if n < m {
      FieldErrSpreads(r, cs, n, m - 1);
    }
  }
}
