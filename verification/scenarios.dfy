/** Concrete request sequences on the seeded chart. */
module Scenarios {
  import opened Json
  import opened ChartOps
  import opened Store
  import opened UpdateHandler
  import opened Lifecycle

  /** Updating record "2" with only a new title keeps its name and parent
      and leaves records "1" and "3" as they were. */
  lemma UpdateTitleOnSeed()
    ensures var patch := map["id" := Str("2"), "Title" := Str("COO")];
            var out := Handle(Saved(Seed), Request(true, "update", Some(patch), ""), true);
            && out.response.success
            && out.store == Saved([Seed[0], Seed[1]["Title" := Str("COO")], Seed[2]])
  {
    var patch := map["id" := Str("2"), "Title" := Str("COO")];
    var req := Request(true, "update", Some(patch), "");
    SeedIds();
    assert IdOf(patch) == Str("2");
    assert Seed[1..][0] == Seed[1];
    assert FirstMatch(Seed[1..], Str("2")) == Some(0);
    assert FirstMatch(Seed, Str("2")) == Some(1);
    var next := Seed[1 := Merge(Seed[1], patch)];
    assert UpdateFirst(Seed, patch) == Some(next);
    assert Merge(Seed[1], patch) == Seed[1]["Title" := Str("COO")];
    assert next == [Seed[0], Seed[1]["Title" := Str("COO")], Seed[2]];
    assert Apply(LoadChart(Saved(Seed)), req) == Commit(MsgUpdated, next);
  }

  /** Removing the root "1" removes only that record: "2" and "3" stay, with
      a `pid` that now names no record. */
  lemma RemoveRootOrphansChildren()
    ensures var out := Handle(Saved(Seed), Request(true, "remove", None, "1"), true);
            && out.response.success
            && out.store == Saved([Seed[1], Seed[2]])
            && !WellLinked(LoadChart(out.store))
  {
    var req := Request(true, "remove", None, "1");
    SeedIds();
    var rest := [Seed[1], Seed[2]];
    assert Seed[1..][0] == Seed[1] && Seed[1..][1..] == [Seed[2]] && [Seed[2]][1..] == [];
    assert Without([Seed[2]], Str("1")) == [Seed[2]];
    assert Without(Seed[1..], Str("1")) == rest;
    assert Without(Seed, Str("1")) == rest;
    assert Apply(LoadChart(Saved(Seed)), req) == Commit(MsgRemoved, rest);
    assert !WellLinked(rest) by {
      assert rest[0]["pid"] == Str("1");
      forall j | 0 <= j < |rest|
        ensures !HasId(rest[j], rest[0]["pid"])
      {
      }
    }
  }

  /** The same new hire added twice appears twice. */
  lemma AddSameIdTwice()
    ensures var hire := map["id" := Str("4"), "pid" := Str("1"), "EmployeeName" := Str("New Hire")];
            var req := Request(true, "add", Some(hire), "");
            var first := Handle(Saved(Seed), req, true);
            var second := Handle(first.store, req, true);
            && second.response.success
            && second.store == Saved(Seed + [hire, hire])
            && Count(LoadChart(second.store), Str("4")) == 2
  {
    var hire := map["id" := Str("4"), "pid" := Str("1"), "EmployeeName" := Str("New Hire")];
    assert Count(Seed, Str("4")) == 0 by {
      SeedIds();
    }
    var req := Request(true, "add", Some(hire), "");
    assert IdOf(hire) == Str("4");
    var once := Seed + [hire];
    assert Handle(Saved(Seed), req, true).store == Saved(once);
    assert once + [hire] == Seed + [hire, hire];
    assert Handle(Saved(once), req, true).store == Saved(Seed + [hire, hire]);
    CountAppend(Seed, hire, Str("4"));
    CountAppend(once, hire, Str("4"));
  }

  /** A `node_id` of "0" is falsy in PHP, so it is reported as missing even
      though the chart may hold a record with id "0". */
  lemma RemoveZeroIdIsMissing(stored: Stored)
    ensures Handle(stored, Request(true, "remove", None, "0"), true)
            == Outcome(Reply(false, MsgMissingNodeId, None), stored, false)
  {
  }
}
