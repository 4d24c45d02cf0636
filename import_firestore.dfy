/** The bulk import job: for each of four dataset groups, in a fixed order,
    every document has its group's date fields turned into timestamps and is
    then written with `set` under its dataset key. The first conversion or
    write that throws ends the whole run. */
module Import {
  import opened Values
  import opened Store

  /** The four dataset groups the job knows, each imported into the
      collection of the same name. */
  datatype Group = Materiais | Instrumentos | Alertas | Usuarios
  {
    function Name(): string
    {
      match this
      case Materiais => "materiais"
      case Instrumentos => "instrumentos"
      case Alertas => "alertas"
      case Usuarios => "usuarios"
    }

    /** The date fields converted for documents of this group. */
    function TemporalFields(): seq<string>
    {
      match this
      case Materiais => ["criadoEm", "atualizadoEm"]
      case Instrumentos => ["criadoEm", "atualizadoEm", "dataEmprestimo", "dataDevolucaoPrevista"]
      case Alertas => ["criadoEm"]
      case Usuarios => ["criadoEm", "atualizadoEm"]
    }
  }

  /** The order in which the groups are imported. */
  const ImportOrder: seq<Group> := [Materiais, Instrumentos, Alertas, Usuarios]

  /** Position of a collection in the import order; 4 for any other name. */
  function RankOf(c: string): nat
  {
    if c == "materiais" then 0
    else if c == "instrumentos" then 1
    else if c == "alertas" then 2
    else if c == "usuarios" then 3
    else 4
  }

  /** The keys of a dataset group. */
  function KeysOf(entries: Entries): set<string>
  {
    set e | e in entries :: e.0
  }

  // ---------------------------------------------------------------------
  // Date normalisation of one document

  /** The document after its date fields, in order, are converted: a field
      is converted only when present and truthy; the first conversion that
      throws is reported by its field name. */
  function Normalize(doc: Record, fields: seq<string>, parse: DateParser): Result<Record, string>
    decreases |fields|
  {
    if fields == [] then Ok(doc)
    else
      var f := fields[0];
      if !Truthy(Field(doc, f)) then Normalize(doc, fields[1..], parse)
      else
        match parse(doc[f])
        case None => Err(f)
        case Some(t) => Normalize(doc[f := Time(t)], fields[1..], parse)
  }

  /** The value field `k` of `doc` should hold after normalisation. */
  function Converted(doc: Record, fields: seq<string>, parse: DateParser, k: string): Value
    requires k in doc
  {
    if k in fields && Truthy(doc[k]) && parse(doc[k]).Some? then Time(parse(doc[k]).value) else doc[k]
  }

  lemma TemporalFieldsDistinct(g: Group)
    ensures NoDup(g.TemporalFields())
  {
  }

  /** Normalisation succeeds exactly when every present, truthy date field
      converts; it then keeps the document's field set (no default is
      invented), turns exactly those fields into timestamps and leaves every
      other field as it was. A failure names a field that could not convert. */
  lemma {:induction false} NormalizeSpec(doc: Record, fields: seq<string>, parse: DateParser)
    requires NoDup(fields)
    ensures Normalize(doc, fields, parse).Ok? <==>
              (forall f :: f in fields && Truthy(Field(doc, f)) ==> parse(doc[f]).Some?)
    ensures Normalize(doc, fields, parse).Ok? ==>
              var d := Normalize(doc, fields, parse).value;
              d.Keys == doc.Keys && forall k :: k in doc ==> d[k] == Converted(doc, fields, parse, k)
    ensures Normalize(doc, fields, parse).Err? ==>
              var f := Normalize(doc, fields, parse).error;
              f in fields && Truthy(Field(doc, f)) && parse(doc[f]).None?
    decreases |fields|
  {
    if fields != [] {
      var f, rest := fields[0], fields[1..];
      assert NoDup(rest) by {
        forall i, j | 0 <= i < j < |rest|
          ensures rest[i] != rest[j]
        {
          assert rest[i] == fields[i + 1] && rest[j] == fields[j + 1];
        }
      }
      assert forall g :: g in rest ==> g != f by {
        forall g | g in rest
          ensures g != f
        {
          var j :| 0 <= j < |rest| && rest[j] == g;
          assert fields[j + 1] == g;
        }
      }
      assert forall g :: g in fields <==> g == f || g in rest;
      if !Truthy(Field(doc, f)) {
        NormalizeSpec(doc, rest, parse);
      } else if parse(doc[f]).Some? {
        var doc' := doc[f := Time(parse(doc[f]).value)];
        NormalizeSpec(doc', rest, parse);
        assert forall g :: g in rest ==> Field(doc', g) == Field(doc, g);
      }
    }
  }

  /** Each group converts exactly its own date fields: a document of group
      `g` normalises exactly when each of `g`'s present, truthy date fields
      converts, and then keeps its field set, with exactly those fields
      turned into timestamps and every other field (including the date
      fields of other groups) as it was. */
  lemma GroupConversion(g: Group, doc: Record, parse: DateParser)
    ensures Normalize(doc, g.TemporalFields(), parse).Ok? <==>
              (forall f :: f in g.TemporalFields() && Truthy(Field(doc, f)) ==> parse(doc[f]).Some?)
    ensures Normalize(doc, g.TemporalFields(), parse).Ok? ==>
              var d := Normalize(doc, g.TemporalFields(), parse).value;
              d.Keys == doc.Keys &&
              (forall k :: k in doc && k !in g.TemporalFields() ==> d[k] == doc[k]) &&
              (forall k :: k in doc && k in g.TemporalFields() ==>
                 d[k] == if Truthy(doc[k]) then Time(parse(doc[k]).value) else doc[k])
  {
    TemporalFieldsDistinct(g);
    NormalizeSpec(doc, g.TemporalFields(), parse);
  }

  /** The in-place conversion of one document's date fields (the sequence of
      `if (docData.x) docData.x = ...` statements of each group). */
  method NormalizeDoc(docData: Record, fields: seq<string>, parse: DateParser) returns (r: Result<Record, string>)
    ensures r == Normalize(docData, fields, parse)
  {
    var d := docData;
    var i := 0;
    while i < |fields|
      invariant 0 <= i <= |fields|
      invariant Normalize(docData, fields, parse) == Normalize(d, fields[i..], parse)
    {
      var f := fields[i];
      assert fields[i..][1..] == fields[i + 1..];
      if Truthy(Field(d, f)) {
        var t := parse(d[f]);
        if t.None? {
          return Err(f);
        }
        d := d[f := Time(t.value)];
      }
      i := i + 1;
    }
    r := Ok(d);
  }

  // ---------------------------------------------------------------------
  // The run as a plan of writes

  datatype Write = Write(coll: string, key: string, doc: Record)

  /** Why a run stopped: a date field that did not convert, or a refused `set`. */
  datatype Cause = InvalidDate(field: string) | SetRejected

  /** How a run ends: it reaches the end, or the outer catch ends it at the
      named document. */
  datatype Outcome = Completed | Aborted(coll: string, key: string, cause: Cause)

  /** The writes a run performs, in order, and how it ends. */
  datatype Plan = Plan(writes: seq<Write>, outcome: Outcome)

  /** The store after the writes, in order. */
  function Apply(db: Db, ws: seq<Write>): Db
    decreases |ws|
  {
    if ws == [] then db
    else
      var w := ws[|ws| - 1];
      Put(Apply(db, ws[..|ws| - 1]), w.coll, w.key, w.doc)
  }

  /** One document: normalise, then `set`. */
  function DocPlan(g: Group, id: string, doc: Record, parse: DateParser, faults: Faults): Plan
  {
    match Normalize(doc, g.TemporalFields(), parse)
    case Err(f) => Plan([], Aborted(g.Name(), id, InvalidDate(f)))
    case Ok(d) =>
      if Rejected(faults, SetOp(g.Name(), id, d)) then Plan([], Aborted(g.Name(), id, SetRejected))
      else Plan([Write(g.Name(), id, d)], Completed)
  }

  /** `p` then `q`, unless `p` already ended the run. */
  function Then(p: Plan, q: Plan): Plan
  {
    if p.outcome.Aborted? then p else Plan(p.writes + q.writes, q.outcome)
  }

  /** The loop over one group's documents, in dataset order. */
  function GroupPlan(g: Group, entries: Entries, parse: DateParser, faults: Faults): Plan
  {
    GroupPrefix(g, entries, |entries|, parse, faults)
  }

  /** The loop over the first `n` documents of a group. */
  function GroupPrefix(g: Group, entries: Entries, n: nat, parse: DateParser, faults: Faults): Plan
    requires n <= |entries|
    decreases n
  {
    if n == 0 then Plan([], Completed)
    else Then(GroupPrefix(g, entries, n - 1, parse, faults), DocPlan(g, entries[n - 1].0, entries[n - 1].1, parse, faults))
  }

  /** `if (data.<group>) { ... }`: an absent group writes nothing. */
  function PresentPlan(g: Group, data: Dataset, parse: DateParser, faults: Faults): Plan
  {
    if g.Name() in data then GroupPlan(g, data[g.Name()], parse, faults) else Plan([], Completed)
  }

  /** The groups `gs`, in order. */
  function PlanOver(gs: seq<Group>, data: Dataset, parse: DateParser, faults: Faults): Plan
    decreases |gs|
  {
    if gs == [] then Plan([], Completed)
    else Then(PlanOver(gs[..|gs| - 1], data, parse, faults), PresentPlan(gs[|gs| - 1], data, parse, faults))
  }

  /** The whole run: the four groups in the order the job lists them. */
  function ImportPlan(data: Dataset, parse: DateParser, faults: Faults): Plan
  {
    Then(Then(Then(PresentPlan(Materiais, data, parse, faults),
                   PresentPlan(Instrumentos, data, parse, faults)),
              PresentPlan(Alertas, data, parse, faults)),
         PresentPlan(Usuarios, data, parse, faults))
  }

  /** The run is the fold of its groups over ImportOrder. */
  lemma ImportPlanOverOrder(data: Dataset, parse: DateParser, faults: Faults)
    ensures ImportPlan(data, parse, faults) == PlanOver(ImportOrder, data, parse, faults)
  {
    var one, two, three := [Materiais], [Materiais, Instrumentos], [Materiais, Instrumentos, Alertas];
    assert ImportOrder[..3] == three && three[..2] == two && two[..1] == one && one[..0] == [];
    var p1 := PresentPlan(Materiais, data, parse, faults);
    assert PlanOver(one, data, parse, faults) == Then(Plan([], Completed), p1) == p1;
    assert PlanOver(two, data, parse, faults) == Then(p1, PresentPlan(Instrumentos, data, parse, faults));
  }

  /** A document the run gets past: it normalises and its `set` is accepted. */
  predicate Accepted(g: Group, e: (string, Record), parse: DateParser, faults: Faults)
  {
    DocPlan(g, e.0, e.1, parse, faults).outcome == Completed
  }

  // ---------------------------------------------------------------------
  // Lemmas about applying writes

  lemma {:induction false} ApplyConcat(db: Db, a: seq<Write>, b: seq<Write>)
    ensures Apply(db, a + b) == Apply(Apply(db, a), b)
    decreases |b|
  {
    if b == [] {
      assert a + b == a;
    } else {
      var m := |b| - 1;
      assert (a + b)[..|a + b| - 1] == a + b[..m];
      ApplyConcat(db, a, b[..m]);
    }
  }

  /** The last write, if any, to document `k` of collection `c`. */
  function LastWrite(ws: seq<Write>, c: string, k: string): Option<Record>
    decreases |ws|
  {
    if ws == [] then None
    else
      var w := ws[|ws| - 1];
      if w.coll == c && w.key == k then Some(w.doc) else LastWrite(ws[..|ws| - 1], c, k)
  }

  /** After a sequence of `set`s each document holds the last record written
      to it, and a document nobody wrote holds what it held before. */
  lemma {:induction false} ApplyLookup(db: Db, ws: seq<Write>, c: string, k: string)
    ensures Lookup(Apply(db, ws), c, k) == if LastWrite(ws, c, k).Some? then LastWrite(ws, c, k) else Lookup(db, c, k)
    decreases |ws|
  {
    if ws != [] {
      ApplyLookup(db, ws[..|ws| - 1], c, k);
    }
  }

  /** Replaying the writes of a run on the store it produced changes nothing:
      `set` only overwrites, so re-running is safe. */
  lemma ApplyTwice(db: Db, ws: seq<Write>)
    ensures Apply(Apply(db, ws), ws) == Apply(db, ws)
  {
    var once := Apply(db, ws);
    var twice := Apply(once, ws);
    forall c, k
      ensures Lookup(twice, c, k) == Lookup(once, c, k)
    {
      ApplyLookup(db, ws, c, k);
      ApplyLookup(once, ws, c, k);
    }
    SameStore(twice, once);
  }

  lemma {:induction false} LastWriteConcat(a: seq<Write>, b: seq<Write>, c: string, k: string)
    ensures LastWrite(a + b, c, k) == if LastWrite(b, c, k).Some? then LastWrite(b, c, k) else LastWrite(a, c, k)
    decreases |b|
  {
    if b == [] {
      assert a + b == a;
    } else {
      var m := |b| - 1;
      assert (a + b)[..|a + b| - 1] == a + b[..m];
      LastWriteConcat(a, b[..m], c, k);
    }
  }

  lemma {:induction false} LastWriteMissing(ws: seq<Write>, c: string, k: string)
    requires forall w :: w in ws ==> w.coll != c || w.key != k
    ensures LastWrite(ws, c, k) == None
    decreases |ws|
  {
    if ws != [] {
      var m := |ws| - 1;
      assert ws[m] in ws;
      assert forall w :: w in ws[..m] ==> w in ws;
      LastWriteMissing(ws[..m], c, k);
    }
  }

  lemma {:induction false} LastWriteAt(ws: seq<Write>, i: nat)
    requires i < |ws|
    requires forall j :: i < j < |ws| ==> ws[j].coll != ws[i].coll || ws[j].key != ws[i].key
    ensures LastWrite(ws, ws[i].coll, ws[i].key) == Some(ws[i].doc)
    decreases |ws|
  {
    var m := |ws| - 1;
    if i < m {
      LastWriteAt(ws[..m], i);
    }
  }

  // ---------------------------------------------------------------------
  // Steps run one after the other until one stops

  /** The first `n` of the steps `ps`, each run only if the previous ones did
      not stop. */
  function Chain(ps: seq<Plan>, n: nat): Plan
    requires n <= |ps|
    decreases n
  {
    if n == 0 then Plan([], Completed) else Then(Chain(ps, n - 1), ps[n - 1])
  }

  /** The store after the first `n` steps, one step after the other, for a
      loop that has not stopped. */
  function ChainStore(db: Db, ps: seq<Plan>, n: nat): Db
    requires n <= |ps|
    decreases n
  {
    if n == 0 then db else Apply(ChainStore(db, ps, n - 1), ps[n - 1].writes)
  }

  /** A step writes one document when it gets through and none when it stops. */
  predicate StepShaped(p: Plan)
  {
    if p.outcome == Completed then |p.writes| == 1 else p.writes == []
  }

  /** The first `m` steps write, in order, the one write of each step up to
      the first that stops; they complete exactly when none stops, and
      otherwise end with the first stopping step's outcome. */
  lemma {:induction false} ChainSpec(ps: seq<Plan>, m: nat) returns (n: nat)
    requires m <= |ps|
    requires forall j :: 0 <= j < |ps| ==> StepShaped(ps[j])
    ensures n <= m && |Chain(ps, m).writes| == n
    ensures forall j :: 0 <= j < n ==> ps[j].outcome == Completed && |ps[j].writes| == 1 && Chain(ps, m).writes[j] == ps[j].writes[0]
    ensures Chain(ps, m).outcome == Completed <==> n == m
    ensures n < m ==> ps[n].outcome.Aborted? && Chain(ps, m).outcome == ps[n].outcome
    decreases m
  {
    if m == 0 {
      n := 0;
    } else {
      var n0 := ChainSpec(ps, m - 1);
      assert StepShaped(ps[m - 1]);
      if n0 < m - 1 {
        n := n0;
      } else if ps[m - 1].outcome == Completed {
        n := m;
      } else {
        n := m - 1;
      }
    }
  }

  /** Step by step, a loop that has not stopped reaches the store its plan
      describes. */
  lemma {:induction false} ChainStoreIsApply(db: Db, ps: seq<Plan>, n: nat)
    requires n <= |ps|
    requires Chain(ps, n).outcome == Completed
    ensures ChainStore(db, ps, n) == Apply(db, Chain(ps, n).writes)
    decreases n
  {
    if n > 0 {
      ChainStoreIsApply(db, ps, n - 1);
      ApplyConcat(db, Chain(ps, n - 1).writes, ps[n - 1].writes);
    }
  }

  /** Once the chain has stopped, later steps change nothing. */
  lemma {:induction false} AbortedChainIsFinal(ps: seq<Plan>, i: nat, n: nat)
    requires i <= n <= |ps|
    requires Chain(ps, i).outcome.Aborted?
    ensures Chain(ps, n) == Chain(ps, i)
    decreases n
  {
    if i < n {
      AbortedChainIsFinal(ps, i, n - 1);
    }
  }

  /** A step that stops the loop leaves the store, and the outcome, that the
      whole chain describes. */
  lemma ChainStop(db: Db, ps: seq<Plan>, i: nat)
    requires i < |ps|
    requires Chain(ps, i).outcome == Completed
    requires ps[i].outcome.Aborted?
    ensures Chain(ps, |ps|).outcome == ps[i].outcome
    ensures Apply(ChainStore(db, ps, i), ps[i].writes) == Apply(db, Chain(ps, |ps|).writes)
  {
    AbortedChainIsFinal(ps, i + 1, |ps|);
    ChainStoreIsApply(db, ps, i);
    ApplyConcat(db, Chain(ps, i).writes, ps[i].writes);
  }

  /** One more step of a loop that has not stopped: either the loop goes on,
      or it ends with the store and the outcome of the whole chain. */
  lemma ChainNext(db: Db, ps: seq<Plan>, i: nat, after: Db, out: Outcome)
    requires i < |ps|
    requires Chain(ps, i).outcome == Completed
    requires after == Apply(ChainStore(db, ps, i), ps[i].writes)
    requires out == ps[i].outcome
    ensures out == Completed ==> Chain(ps, i + 1).outcome == Completed && after == ChainStore(db, ps, i + 1)
    ensures out.Aborted? ==> out == Chain(ps, |ps|).outcome && after == Apply(db, Chain(ps, |ps|).writes)
  {
    if out.Aborted? {
      ChainStop(db, ps, i);
    }
  }

  // ---------------------------------------------------------------------
  // Lemmas about one group

  /** The plan of each document of a group, in dataset order. */
  function DocPlans(g: Group, entries: Entries, parse: DateParser, faults: Faults): seq<Plan>
  {
    seq(|entries|, i requires 0 <= i < |entries| => DocPlan(g, entries[i].0, entries[i].1, parse, faults))
  }

  /** A group's loop over its first `n` documents is the chain of their plans. */
  lemma {:induction false} GroupPrefixIsChain(g: Group, entries: Entries, n: nat, parse: DateParser, faults: Faults)
    requires n <= |entries|
    ensures GroupPrefix(g, entries, n, parse, faults) == Chain(DocPlans(g, entries, parse, faults), n)
    decreases n
  {
    if n > 0 {
      GroupPrefixIsChain(g, entries, n - 1, parse, faults);
    }
  }


  /** Once the loop over a group has stopped, later documents change nothing. */
  lemma AbortedPrefixIsFinal(g: Group, entries: Entries, i: nat, n: nat, parse: DateParser, faults: Faults)
    requires i <= n <= |entries|
    requires GroupPrefix(g, entries, i, parse, faults).outcome.Aborted?
    ensures GroupPrefix(g, entries, n, parse, faults) == GroupPrefix(g, entries, i, parse, faults)
  {
    GroupPrefixIsChain(g, entries, i, parse, faults);
    GroupPrefixIsChain(g, entries, n, parse, faults);
    AbortedChainIsFinal(DocPlans(g, entries, parse, faults), i, n);
  }

  /** The loop over the first `m` documents of a group writes, in dataset
      order, the normalised record of each document up to the first one that
      does not get through, under its dataset key in the group's own
      collection; it completes exactly when every one of them gets through,
      and otherwise ends at the first that does not, for that document's
      reason. The result `n` is the number written. */
  lemma GroupPlanSpec(g: Group, entries: Entries, m: nat, parse: DateParser, faults: Faults) returns (n: nat)
    requires m <= |entries|
    ensures n <= m && |GroupPrefix(g, entries, m, parse, faults).writes| == n
    ensures forall j :: 0 <= j < n ==>
              Accepted(g, entries[j], parse, faults) &&
              GroupPrefix(g, entries, m, parse, faults).writes[j] ==
                Write(g.Name(), entries[j].0, Normalize(entries[j].1, g.TemporalFields(), parse).value)
    ensures GroupPrefix(g, entries, m, parse, faults).outcome == Completed <==> n == m
    ensures n < m ==>
              !Accepted(g, entries[n], parse, faults) &&
              GroupPrefix(g, entries, m, parse, faults).outcome == DocPlan(g, entries[n].0, entries[n].1, parse, faults).outcome
  {
    var ps := DocPlans(g, entries, parse, faults);
    GroupPrefixIsChain(g, entries, m, parse, faults);
    forall j | 0 <= j < |ps|
      ensures StepShaped(ps[j])
    {
      DocPlanShape(g, entries[j], parse, faults);
    }
    n := ChainSpec(ps, m);
    forall j | 0 <= j < n
      ensures Accepted(g, entries[j], parse, faults)
      ensures Chain(ps, m).writes[j] == Write(g.Name(), entries[j].0, Normalize(entries[j].1, g.TemporalFields(), parse).value)
    {
      assert ps[j] == DocPlan(g, entries[j].0, entries[j].1, parse, faults);
      DocPlanShape(g, entries[j], parse, faults);
    }
  }

  /** A document's plan writes exactly its normalised record when it gets
      through, and nothing when it does not. */
  lemma DocPlanShape(g: Group, e: (string, Record), parse: DateParser, faults: Faults)
    ensures Accepted(g, e, parse, faults) ==>
              DocPlan(g, e.0, e.1, parse, faults).writes == [Write(g.Name(), e.0, Normalize(e.1, g.TemporalFields(), parse).value)]
    ensures !Accepted(g, e, parse, faults) ==>
              DocPlan(g, e.0, e.1, parse, faults).outcome.Aborted? && DocPlan(g, e.0, e.1, parse, faults).writes == []
  {
  }

  // ---------------------------------------------------------------------
  // Lemmas about the whole run

  /** Every write of a group's loop goes to that group's collection, under
      a key of that group. */
  lemma GroupWritesTargets(g: Group, entries: Entries, parse: DateParser, faults: Faults)
    ensures forall w :: w in GroupPlan(g, entries, parse, faults).writes ==> w.coll == g.Name() && w.key in KeysOf(entries)
  {
    var ws := GroupPlan(g, entries, parse, faults).writes;
    var n := GroupPlanSpec(g, entries, |entries|, parse, faults);
    forall w | w in ws
      ensures w.coll == g.Name() && w.key in KeysOf(entries)
    {
      var j :| 0 <= j < |ws| && ws[j] == w;
      assert entries[j] in entries;
    }
  }

  /** The writes of the groups `gs` go only to collections of present groups
      among `gs`, under keys of those groups. */
  lemma {:induction false} PlanOverTargets(gs: seq<Group>, data: Dataset, parse: DateParser, faults: Faults)
    ensures forall w :: w in PlanOver(gs, data, parse, faults).writes ==>
              exists g :: g in gs && g.Name() == w.coll && w.coll in data && w.key in KeysOf(data[w.coll])
    decreases |gs|
  {
    if gs != [] {
      var m := |gs| - 1;
      PlanOverTargets(gs[..m], data, parse, faults);
      var g := gs[m];
      if g.Name() in data {
        GroupWritesTargets(g, data[g.Name()], parse, faults);
      }
      var p := PlanOver(gs[..m], data, parse, faults);
      var q := PresentPlan(g, data, parse, faults);
      forall w | w in PlanOver(gs, data, parse, faults).writes
        ensures exists h :: h in gs && h.Name() == w.coll && w.coll in data && w.key in KeysOf(data[w.coll])
      {
        if w in p.writes {
          var h :| h in gs[..m] && h.Name() == w.coll && w.coll in data && w.key in KeysOf(data[w.coll]);
          assert h in gs;
        } else {
          assert w in q.writes;
          assert g in gs;
        }
      }
    }
  }

  /** The import touches nothing outside the dataset: a document whose
      collection is not a present group, or whose key is not a key of that
      group, is exactly as it was. In particular an absent group causes no
      write and every other collection is left alone. */
  lemma ImportLeavesOthersAlone(db: Db, data: Dataset, parse: DateParser, faults: Faults, c: string, k: string)
    requires !(RankOf(c) < 4 && c in data && k in KeysOf(data[c]))
    ensures Lookup(Apply(db, ImportPlan(data, parse, faults).writes), c, k) == Lookup(db, c, k)
  {
    var ws := ImportPlan(data, parse, faults).writes;
    ImportPlanOverOrder(data, parse, faults);
    PlanOverTargets(ImportOrder, data, parse, faults);
    forall w | w in ws
      ensures w.coll != c || w.key != k
    {
      var g :| g in ImportOrder && g.Name() == w.coll && w.coll in data && w.key in KeysOf(data[w.coll]);
      assert RankOf(g.Name()) < 4;
    }
    LastWriteMissing(ws, c, k);
    ApplyLookup(db, ws, c, k);
  }

  /** A completed run over `gs` (distinct groups) leaves as the last write to
      a document of group `g` the last write of `g`'s own loop. */
  lemma {:induction false} PlanOverLastWrite(gs: seq<Group>, data: Dataset, parse: DateParser, faults: Faults, g: Group, k: string)
    requires NoDup(gs) && g in gs
    requires PlanOver(gs, data, parse, faults).outcome == Completed
    ensures LastWrite(PlanOver(gs, data, parse, faults).writes, g.Name(), k) == LastWrite(PresentPlan(g, data, parse, faults).writes, g.Name(), k)
    decreases |gs|
  {
    var m := |gs| - 1;
    var p := PlanOver(gs[..m], data, parse, faults);
    var h := gs[m];
    var q := PresentPlan(h, data, parse, faults);
    assert !p.outcome.Aborted?;
    assert PlanOver(gs, data, parse, faults).writes == p.writes + q.writes;
    LastWriteConcat(p.writes, q.writes, g.Name(), k);
    if h == g {
      if LastWrite(q.writes, g.Name(), k).None? {
        assert forall j :: 0 <= j < m ==> gs[..m][j] != g;
        PlanOverMissing(gs[..m], data, parse, faults, g, k);
      }
    } else {
      if h.Name() in data {
        GroupWritesTargets(h, data[h.Name()], parse, faults);
      }
      LastWriteMissing(q.writes, g.Name(), k);
      assert g in gs[..m] by {
        var j :| 0 <= j < |gs| && gs[j] == g;
        assert j < m;
      }
      assert NoDup(gs[..m]);
      PlanOverLastWrite(gs[..m], data, parse, faults, g, k);
    }
  }

  /** Groups outside `gs` get no write from the groups `gs`. */
  lemma PlanOverMissing(gs: seq<Group>, data: Dataset, parse: DateParser, faults: Faults, g: Group, k: string)
    requires g !in gs
    ensures LastWrite(PlanOver(gs, data, parse, faults).writes, g.Name(), k).None?
  {
    var ws := PlanOver(gs, data, parse, faults).writes;
    PlanOverTargets(gs, data, parse, faults);
    forall w | w in ws
      ensures w.coll != g.Name() || w.key != k
    {
      var h :| h in gs && h.Name() == w.coll && w.coll in data && w.key in KeysOf(data[w.coll]);
      assert h != g;
    }
    LastWriteMissing(ws, g.Name(), k);
  }

  /** After a run that completes, a document of a present group holds exactly
      the normalised record of the last dataset entry with its key: `set`
      overwrote whatever was there, nothing was merged. */
  lemma ImportStoresNormalized(db: Db, data: Dataset, parse: DateParser, faults: Faults, g: Group, i: nat)
    requires ImportPlan(data, parse, faults).outcome == Completed
    requires g.Name() in data && i < |data[g.Name()]|
    requires forall j :: i < j < |data[g.Name()]| ==> data[g.Name()][j].0 != data[g.Name()][i].0
    ensures Normalize(data[g.Name()][i].1, g.TemporalFields(), parse).Ok?
    ensures Lookup(Apply(db, ImportPlan(data, parse, faults).writes), g.Name(), data[g.Name()][i].0)
            == Some(Normalize(data[g.Name()][i].1, g.TemporalFields(), parse).value)
  {
    var entries := data[g.Name()];
    var k := entries[i].0;
    var ws := ImportPlan(data, parse, faults).writes;
    var gw := GroupPlan(g, entries, parse, faults);
    ImportPlanOverOrder(data, parse, faults);
    assert NoDup(ImportOrder);
    assert g in ImportOrder;
    PlanOverLastWrite(ImportOrder, data, parse, faults, g, k);
    CompletedHasCompletedGroups(ImportOrder, data, parse, faults, g);
    var n := GroupPlanSpec(g, entries, |entries|, parse, faults);
    LastWriteAt(gw.writes, i);
    ApplyLookup(db, ws, g.Name(), k);
  }

  /** A completed run completed every group's loop. */
  lemma {:induction false} CompletedHasCompletedGroups(gs: seq<Group>, data: Dataset, parse: DateParser, faults: Faults, g: Group)
    requires g in gs
    requires PlanOver(gs, data, parse, faults).outcome == Completed
    ensures PresentPlan(g, data, parse, faults).outcome == Completed
    decreases |gs|
  {
    var m := |gs| - 1;
    assert !PlanOver(gs[..m], data, parse, faults).outcome.Aborted?;
    if gs[m] != g {
      assert g in gs[..m] by {
        var j :| 0 <= j < |gs| && gs[j] == g;
        assert j < m;
      }
      CompletedHasCompletedGroups(gs[..m], data, parse, faults, g);
    }
  }

  /** The writes go to collections in non-decreasing group rank. */
  predicate RankSorted(ws: seq<Write>)
  {
    forall i, j :: 0 <= i < j < |ws| ==> RankOf(ws[i].coll) <= RankOf(ws[j].coll)
  }

  /** Writes of lower rank followed by writes all of rank `r` stay sorted. */
  lemma SortedConcat(a: seq<Write>, b: seq<Write>, r: nat)
    requires RankSorted(a)
    requires forall w :: w in a ==> RankOf(w.coll) < r
    requires forall w :: w in b ==> RankOf(w.coll) == r
    ensures RankSorted(a + b)
  {
    var ws := a + b;
    forall i, j | 0 <= i < j < |ws|
      ensures RankOf(ws[i].coll) <= RankOf(ws[j].coll)
    {
      if j >= |a| {
        assert ws[j] == b[j - |a|];
        assert ws[j] in b;
        if i < |a| {
          assert ws[i] in a;
        } else {
          assert ws[i] == b[i - |a|];
          assert ws[i] in b;
        }
      }
    }
  }

  lemma RankOfOrder(i: nat)
    requires i < |ImportOrder|
    ensures RankOf(ImportOrder[i].Name()) == i
  {
  }

  /** The first `m` groups write in group order, and only to those groups. */
  lemma {:induction false} PrefixWritesSorted(data: Dataset, parse: DateParser, faults: Faults, m: nat)
    requires m <= |ImportOrder|
    ensures RankSorted(PlanOver(ImportOrder[..m], data, parse, faults).writes)
    ensures forall w :: w in PlanOver(ImportOrder[..m], data, parse, faults).writes ==> RankOf(w.coll) < m
    decreases m
  {
    if m > 0 {
      assert ImportOrder[..m][..m - 1] == ImportOrder[..m - 1];
      PrefixWritesSorted(data, parse, faults, m - 1);
      var g := ImportOrder[m - 1];
      RankOfOrder(m - 1);
      var p := PlanOver(ImportOrder[..m - 1], data, parse, faults);
      var q := PresentPlan(g, data, parse, faults);
      if g.Name() in data {
        GroupWritesTargets(g, data[g.Name()], parse, faults);
      }
      if !p.outcome.Aborted? {
        SortedConcat(p.writes, q.writes, m - 1);
      }
    }
  }

  /** When the first `m` groups stop the run in some group, nothing of a later
      group was written. */
  lemma {:induction false} PrefixAbortIsLast(data: Dataset, parse: DateParser, faults: Faults, m: nat)
    requires m <= |ImportOrder|
    ensures var p := PlanOver(ImportOrder[..m], data, parse, faults);
            p.outcome.Aborted? ==> RankOf(p.outcome.coll) < m &&
                                   forall w :: w in p.writes ==> RankOf(w.coll) <= RankOf(p.outcome.coll)
    decreases m
  {
    if m > 0 {
      assert ImportOrder[..m][..m - 1] == ImportOrder[..m - 1];
      PrefixAbortIsLast(data, parse, faults, m - 1);
      PrefixWritesSorted(data, parse, faults, m - 1);
      var g := ImportOrder[m - 1];
      RankOfOrder(m - 1);
      var p := PlanOver(ImportOrder[..m - 1], data, parse, faults);
      var q := PresentPlan(g, data, parse, faults);
      assert PlanOver(ImportOrder[..m], data, parse, faults) == Then(p, q);
      if !p.outcome.Aborted? && q.outcome.Aborted? {
        PresentPlanTargets(g, data, parse, faults);
        assert RankOf(q.outcome.coll) == m - 1;
        forall w | w in p.writes + q.writes
          ensures RankOf(w.coll) <= m - 1
        {
          if w !in p.writes {
            assert w in q.writes;
          }
        }
      }
    }
  }

  /** A present group's loop writes, and stops, only in that group's collection. */
  lemma PresentPlanTargets(g: Group, data: Dataset, parse: DateParser, faults: Faults)
    ensures forall w :: w in PresentPlan(g, data, parse, faults).writes ==> w.coll == g.Name()
    ensures PresentPlan(g, data, parse, faults).outcome.Aborted? ==>
              PresentPlan(g, data, parse, faults).outcome.coll == g.Name()
  {
    if g.Name() in data {
      GroupWritesTargets(g, data[g.Name()], parse, faults);
      var n := GroupPlanSpec(g, data[g.Name()], |data[g.Name()]|, parse, faults);
    }
  }

  /** Groups are written in the order materiais, instrumentos, alertas,
      usuarios, and a run that stops in some group writes nothing of any
      later group. (Within a group the order is the dataset's, by
      GroupPlanSpec.) */
  lemma ImportWritesInGroupOrder(data: Dataset, parse: DateParser, faults: Faults)
    ensures var p := ImportPlan(data, parse, faults);
            RankSorted(p.writes) &&
            (forall w :: w in p.writes ==> RankOf(w.coll) < 4) &&
            (p.outcome.Aborted? ==> RankOf(p.outcome.coll) < 4 &&
                                    forall w :: w in p.writes ==> RankOf(w.coll) <= RankOf(p.outcome.coll))
  {
    ImportPlanOverOrder(data, parse, faults);
    assert ImportOrder[..4] == ImportOrder;
    PrefixWritesSorted(data, parse, faults, 4);
    PrefixAbortIsLast(data, parse, faults, 4);
  }

  // ---------------------------------------------------------------------
  // The job itself, against the store

  /** The body of the loop for the `i`-th document of a group: normalise its
      date fields, then `set` it under its dataset key. `steps` holds the
      group's document plans, so the loop can reason about the step without
      unfolding the normalisation. */
  method ImportDoc(fs: Firestore, g: Group, entries: Entries, i: nat, parse: DateParser, ghost steps: seq<Plan>) returns (out: Outcome)
    requires i < |entries| && steps == DocPlans(g, entries, parse, fs.faults)
    modifies fs
    ensures fs.db == Apply(old(fs.db), steps[i].writes)
    ensures out == steps[i].outcome
  {
    var docId, docData := entries[i].0, entries[i].1;
    assert steps[i] == DocPlan(g, docId, docData, parse, fs.faults);
    var normalized := NormalizeDoc(docData, g.TemporalFields(), parse);
    if normalized.Err? {
      return Aborted(g.Name(), docId, InvalidDate(normalized.error));
    }
    var ok := fs.Set(g.Name(), docId, normalized.value);
    if !ok {
      return Aborted(g.Name(), docId, SetRejected);
    }
    assert Apply(old(fs.db), [Write(g.Name(), docId, normalized.value)]) == fs.db by {
      assert [Write(g.Name(), docId, normalized.value)][..0] == [];
    }
    out := Completed;
  }

  /** The loop over one group's documents; the first failure ends it (and,
      through the outer catch, the run). */
  method ImportGroup(fs: Firestore, g: Group, entries: Entries, parse: DateParser) returns (out: Outcome)
    modifies fs
    ensures fs.db == Apply(old(fs.db), GroupPlan(g, entries, parse, fs.faults).writes)
    ensures out == GroupPlan(g, entries, parse, fs.faults).outcome
  {
    ghost var db0, faults := fs.db, fs.faults;
    ghost var steps := DocPlans(g, entries, parse, faults);
    GroupPrefixIsChain(g, entries, |entries|, parse, faults);
    var i := 0;
    while i < |entries|
      invariant 0 <= i <= |entries|
      invariant Chain(steps, i).outcome == Completed
      invariant fs.db == ChainStore(db0, steps, i)
    {
      out := ImportDoc(fs, g, entries, i, parse, steps);
      ChainNext(db0, steps, i, fs.db, out);
      if out.Aborted? {
        return;
      }
      i := i + 1;
    }
    ChainStoreIsApply(db0, steps, i);
    out := Completed;
  }

  /** `if (data.<group>) { ... }` for one group. */
  method ImportIfPresent(fs: Firestore, g: Group, data: Dataset, parse: DateParser) returns (out: Outcome)
    modifies fs
    ensures fs.db == Apply(old(fs.db), PresentPlan(g, data, parse, fs.faults).writes)
    ensures out == PresentPlan(g, data, parse, fs.faults).outcome
  {
    out := Completed;
    if g.Name() in data {
      out := ImportGroup(fs, g, data[g.Name()], parse);
    }
  }

  /** `importData()` with its outer `catch`: the four groups in order; a
      failure anywhere ends the run. */
  method ImportData(fs: Firestore, data: Dataset, parse: DateParser) returns (out: Outcome)
    modifies fs
    ensures fs.db == Apply(old(fs.db), ImportPlan(data, parse, fs.faults).writes)
    ensures out == ImportPlan(data, parse, fs.faults).outcome
  {
    ghost var db0 := fs.db;
    ghost var done := Plan([], Completed);
    assert Then(done, PresentPlan(Materiais, data, parse, fs.faults)) == PresentPlan(Materiais, data, parse, fs.faults);
    out := ImportIfPresent(fs, Materiais, data, parse);
    done := PresentPlan(Materiais, data, parse, fs.faults);
    if out.Aborted? {
      return;
    }
    ApplyConcat(db0, done.writes, PresentPlan(Instrumentos, data, parse, fs.faults).writes);
    out := ImportIfPresent(fs, Instrumentos, data, parse);
    done := Then(done, PresentPlan(Instrumentos, data, parse, fs.faults));
    if out.Aborted? {
      return;
    }
    ApplyConcat(db0, done.writes, PresentPlan(Alertas, data, parse, fs.faults).writes);
    out := ImportIfPresent(fs, Alertas, data, parse);
    done := Then(done, PresentPlan(Alertas, data, parse, fs.faults));
    if out.Aborted? {
      return;
    }
    ApplyConcat(db0, done.writes, PresentPlan(Usuarios, data, parse, fs.faults).writes);
    out := ImportIfPresent(fs, Usuarios, data, parse);
    done := Then(done, PresentPlan(Usuarios, data, parse, fs.faults));
  }

  /** Once a group has ended the run, later groups change nothing. */
  lemma {:induction false} AbortedRunIsFinal(data: Dataset, parse: DateParser, faults: Faults, m: nat)
    requires m <= |ImportOrder|
    requires PlanOver(ImportOrder[..m], data, parse, faults).outcome.Aborted?
    ensures ImportPlan(data, parse, faults) == PlanOver(ImportOrder[..m], data, parse, faults)
    decreases |ImportOrder| - m
  {
    if m < |ImportOrder| {
      assert ImportOrder[..m + 1][..m] == ImportOrder[..m];
      AbortedRunIsFinal(data, parse, faults, m + 1);
    } else {
      assert ImportOrder[..m] == ImportOrder;
      ImportPlanOverOrder(data, parse, faults);
    }
  }
}
