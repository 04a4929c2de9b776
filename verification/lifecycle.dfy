/** Plugin activation and deactivation: seeding the chart and deleting it. */
module Lifecycle {
  import opened Json
  import opened ChartOps
  import opened Store

  /** A record with the fields the plugin seeds. */
  function Employee(id: string, pid: string, name: string, title: string, email: string, img: string): (n: Node)
    ensures IdOf(n) == Str(id) && IsSet(n, "id")
    ensures "pid" in n && n["pid"] == Str(pid)
  {
    map["id" := Str(id), "pid" := Str(pid), "EmployeeName" := Str(name),
        "Title" := Str(title), "Email" := Str(email), "ImgUrl" := Str(img)]
  }

  /** The three records written on first activation: the CEO and two
      direct reports. */
  const Seed: seq<Node> := [
    Employee("1", "", "Jack Hill", "Chairman and CEO", "jack@example.com",
             "https://cdn.balkan.app/shared/16.jpg")["tags" := List([Str("orange")])],
    Employee("2", "1", "Ann Smith", "CTO", "ann@example.com", "https://cdn.balkan.app/shared/1.jpg"),
    Employee("3", "1", "Joe Brown", "CFO", "joe@example.com", "https://cdn.balkan.app/shared/2.jpg")
  ]

  /** The ids and parents of the seeded records. */
  lemma SeedIds()
    ensures |Seed| == 3
    ensures IdOf(Seed[0]) == Str("1") && IdOf(Seed[1]) == Str("2") && IdOf(Seed[2]) == Str("3")
    ensures IsSet(Seed[0], "id") && IsSet(Seed[1], "id") && IsSet(Seed[2], "id")
    ensures "pid" in Seed[0] && "pid" in Seed[1] && "pid" in Seed[2]
    ensures Seed[0]["pid"] == Str("") && Seed[1]["pid"] == Str("1") && Seed[2]["pid"] == Str("1")
  {
  }

  /** Every record has its own id, no two records share one, and every
      `pid` is either "" (a root) or the id of some record. */
  predicate WellLinked(nodes: seq<Node>)
  {
    && (forall i :: 0 <= i < |nodes| ==> IsSet(nodes[i], "id") && "pid" in nodes[i])
    && (forall i, j :: 0 <= i < j < |nodes| ==> IdOf(nodes[i]) != IdOf(nodes[j]))
    && (forall i :: 0 <= i < |nodes| ==>
          nodes[i]["pid"] == Str("") || exists j :: 0 <= j < |nodes| && HasId(nodes[j], nodes[i]["pid"]))
  }

  /** The seed has distinct ids "1", "2", "3", and every pid is empty or
      names a record: "1" has an empty pid, and "2" and "3" name "1". */
  lemma SeedWellLinked()
    ensures |Seed| == 3 && WellLinked(Seed)
  {
    SeedIds();
    assert HasId(Seed[0], Str("1"));
  }

  /** Activation seeds the chart only when the option does not exist yet;
      an existing option, even an unreadable one, is never overwritten.
      `writeOk` is what `update_option` returns. */
  function Activate(stored: Stored, writeOk: bool): (r: Stored)
    ensures !stored.Absent? ==> r == stored
    ensures stored.Absent? && writeOk ==> |LoadChart(r)| == 3 && WellLinked(LoadChart(r))
    ensures r.Absent? ==> stored.Absent? && !writeOk
  {
    SeedWellLinked();
    if stored.Absent? && writeOk then Saved(Seed) else stored
  }

  /** Deactivation deletes the option. */
  function Deactivate(stored: Stored): (r: Stored)
    ensures LoadChart(r) == []
  {
    Absent
  }

  /** Activating twice is the same as activating once; after a deactivation
      the next activation seeds the chart again. */
  lemma ActivateIdempotentAndReseeds(stored: Stored, ok1: bool, ok2: bool)
    ensures Activate(Activate(stored, true), ok2) == Activate(stored, true)
    ensures Activate(Deactivate(stored), true) == Saved(Seed)
    ensures Activate(Activate(stored, ok1), ok2) == Activate(stored, ok1 || ok2)
  {
  }
}
