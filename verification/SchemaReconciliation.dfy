/**
 Reconciling the columns a program expects with the schema in the catalog.
 Column types are opaque; converting an Arrow type may fail. Only top-level
 columns are modelled, `highest` stands for the highest id in use anywhere in
 the catalog's schema.
 */
module SchemaReconciliation {
  import opened Wrappers

  type Name = string
  type Type = int
  type FieldId = int

  datatype ArrowField = ArrowField(name: Name, converted: Option<Type>)

  datatype Field = Field(id: FieldId, name: Name, typ: Type, required: bool)

  datatype Schema = Schema(fields: seq<Field>, identifiers: set<FieldId>, highest: FieldId)

  datatype Error = UnsupportedType | BuilderRefused | FeatureUnsupported

  datatype Reconciliation =
    | UpToDate
    | Evolved(schema: Schema, columnsAdded: seq<Name>, columnsDropped: seq<Name>)

  // ------------------------------------------------------------------
  // Names
  // ------------------------------------------------------------------

  function FieldNames(fields: seq<Field>): set<Name> {
    set f <- fields :: f.name
  }

  function ArrowNames(arrow: seq<ArrowField>): set<Name> {
    set a <- arrow :: a.name
  }

  /** The first field of that name. */
  function Find(fields: seq<Field>, name: Name): Option<Field> {
    if fields == [] then None
    else if fields[0].name == name then Some(fields[0])
    else Find(fields[1..], name)
  }

  /** A map keyed by name keeps the last field of that name. */
  function ByName(fields: seq<Field>): map<Name, Field> {
    if fields == [] then map[]
    else ByName(fields[..|fields| - 1])[fields[|fields| - 1].name := fields[|fields| - 1]]
  }

  ghost predicate DistinctNames(fields: seq<Field>) {
    forall i, j :: 0 <= i < j < |fields| ==> fields[i].name != fields[j].name
  }

  ghost predicate DistinctArrow(arrow: seq<ArrowField>) {
    forall i, j :: 0 <= i < j < |arrow| ==> arrow[i].name != arrow[j].name
  }

  ghost predicate DistinctIds(fields: seq<Field>) {
    forall i, j :: 0 <= i < j < |fields| ==> fields[i].id != fields[j].id
  }

  ghost predicate ValidSchema(s: Schema) {
    DistinctNames(s.fields) && DistinctIds(s.fields) && forall f <- s.fields :: f.id <= s.highest
  }

  lemma {:induction false} ByNameHolds(fields: seq<Field>)
    requires DistinctNames(fields)
    ensures ByName(fields).Keys == FieldNames(fields)
    ensures forall f <- fields :: f.name in ByName(fields) && ByName(fields)[f.name] == f
  {
    if fields != [] {
      var n := |fields| - 1;
      ByNameHolds(fields[..n]);
      assert fields == fields[..n] + [fields[n]];
      forall f | f in fields[..n] ensures f.name != fields[n].name {
        var i :| 0 <= i < n && fields[i] == f;
      }
    }
  }

  lemma {:induction false} FindHolds(fields: seq<Field>, name: Name)
    ensures Find(fields, name).Some? <==> name in FieldNames(fields)
    ensures Find(fields, name).Some? ==> Find(fields, name).value in fields && Find(fields, name).value.name == name
  {
    if fields != [] {
      FindHolds(fields[1..], name);
      assert fields == [fields[0]] + fields[1..];
    }
  }

  // ------------------------------------------------------------------
  // The reconciled columns
  // ------------------------------------------------------------------

  /** The fields for `arrow`, in its order; ids for new ones are handed out from `next` on. */
  function Reconciled(arrow: seq<ArrowField>, catalog: map<Name, Field>, next: FieldId): Result<seq<Field>, Error>
    decreases |arrow|
  {
    if arrow == [] then Ok([])
    else if arrow[0].name in catalog then
      match Reconciled(arrow[1..], catalog, next)
      case Err(e) => Err(e)
      case Ok(rest) => Ok([catalog[arrow[0].name]] + rest)
    else if arrow[0].converted == None then Err(UnsupportedType)
    else
      match Reconciled(arrow[1..], catalog, next + 1)
      case Err(e) => Err(e)
      case Ok(rest) => Ok([Field(next, arrow[0].name, arrow[0].converted.value, false)] + rest)
  }

  function Added(arrow: seq<ArrowField>, catalog: map<Name, Field>): seq<Name> {
    if arrow == [] then []
    else (if arrow[0].name in catalog then [] else [arrow[0].name]) + Added(arrow[1..], catalog)
  }

  function Dropped(fields: seq<Field>, names: set<Name>): seq<Name> {
    if fields == [] then []
    else (if fields[0].name in names then [] else [fields[0].name]) + Dropped(fields[1..], names)
  }

  /** The ids of the identifier columns; names that are no column are skipped. */
  function ResolveIdentifiers(fields: seq<Field>, names: seq<Name>): seq<FieldId> {
    if names == [] then []
    else
      (match Find(fields, names[0]) case Some(f) => [f.id] case None => []) + ResolveIdentifiers(fields, names[1..])
  }

  function Highest(fields: seq<Field>): FieldId {
    if fields == [] then 0
    else
      var rest := Highest(fields[1..]);
      if fields[0].id > rest then fields[0].id else rest
  }

  function IdSet(ids: seq<FieldId>): set<FieldId> {
    set id <- ids
  }

  predicate SameIds(ids: seq<FieldId>, current: set<FieldId>) {
    multiset(ids) == multiset(current)
  }

  /** The whole reconciliation; `accepts` says which schemas the schema builder accepts. */
  function Reconcile(arrow: seq<ArrowField>, catalog: Schema, names: seq<Name>,
                     accepts: (seq<Field>, seq<FieldId>) -> bool)
    : Result<Reconciliation, Error>
  {
    match Reconciled(arrow, ByName(catalog.fields), catalog.highest + 1)
    case Err(e) => Err(e)
    case Ok(fields) =>
      var added, dropped := Added(arrow, ByName(catalog.fields)), Dropped(catalog.fields, ArrowNames(arrow));
      var ids := ResolveIdentifiers(fields, names);
      if added == [] && dropped == [] && SameIds(ids, catalog.identifiers) then Ok(UpToDate)
      else if !accepts(fields, ids) then Err(BuilderRefused)
      else Ok(Evolved(Schema(fields, IdSet(ids), Highest(fields)), added, dropped))
  }

  // ------------------------------------------------------------------
  // The loops
  // ------------------------------------------------------------------

  lemma {:induction false} AddedNext(arrow: seq<ArrowField>, catalog: map<Name, Field>, n: nat)
    requires n < |arrow|
    ensures Added(arrow[..n + 1], catalog) ==
            Added(arrow[..n], catalog) + if arrow[n].name in catalog then [] else [arrow[n].name]
    decreases n
  {
    if n == 0 {
      assert arrow[..1] == [arrow[0]] && [arrow[0]][1..] == [];
    } else {
      assert arrow[..n][1..] == arrow[1..][..n - 1] && arrow[..n + 1][1..] == arrow[1..][..n];
      AddedNext(arrow[1..], catalog, n - 1);
    }
  }

  /** The field for column `n`, given how many columns were added before it. */
  function NextField(a: ArrowField, catalog: map<Name, Field>, id: FieldId): Result<Field, Error> {
    if a.name in catalog then Ok(catalog[a.name])
    else if a.converted == None then Err(UnsupportedType)
    else Ok(Field(id, a.name, a.converted.value, false))
  }

  lemma {:induction false} ReconciledNext(arrow: seq<ArrowField>, catalog: map<Name, Field>, next: FieldId, n: nat)
    requires n < |arrow| && Reconciled(arrow[..n], catalog, next).Ok?
    ensures Reconciled(arrow[..n + 1], catalog, next) ==
            match NextField(arrow[n], catalog, next + |Added(arrow[..n], catalog)|)
            case Ok(f) => Ok(Reconciled(arrow[..n], catalog, next).value + [f])
            case Err(e) => Err(e)
    decreases n
  {
    var f := arrow[0];
    if n == 0 {
      assert arrow[..1] == [f] && [f][1..] == [] && arrow[..0] == [];
      assert Reconciled([], catalog, next) == Ok([]) && Reconciled([], catalog, next + 1) == Ok([]);
      forall g: Field ensures [g] + [] == [] + [g] {
      }
    } else {
      var rest := arrow[1..];
      assert arrow[..n][1..] == rest[..n - 1] && arrow[..n + 1][1..] == rest[..n];
      assert arrow[..n][0] == arrow[..n + 1][0] == f && rest[n - 1] == arrow[n];
      var after := if f.name in catalog then next else next + 1;
      ReconciledNext(rest, catalog, after, n - 1);
      assert after + |Added(rest[..n - 1], catalog)| == next + |Added(arrow[..n], catalog)|;
      var first := if f.name in catalog then catalog[f.name] else Field(next, f.name, f.converted.value, false);
      var tail := Reconciled(rest[..n - 1], catalog, after).value;
      forall g: Field ensures [first] + (tail + [g]) == [first] + tail + [g] {
      }
    }
  }

  lemma {:induction false} ReconciledFails(arrow: seq<ArrowField>, catalog: map<Name, Field>, next: FieldId, n: nat)
    requires n <= |arrow| && Reconciled(arrow[..n], catalog, next).Err?
    ensures Reconciled(arrow, catalog, next) == Err(UnsupportedType)
    decreases n
  {
    if n > 0 {
      assert arrow[..n][1..] == arrow[1..][..n - 1];
      if arrow[0].name in catalog {
        ReconciledFails(arrow[1..], catalog, next, n - 1);
      } else if arrow[0].converted != None {
        ReconciledFails(arrow[1..], catalog, next + 1, n - 1);
      }
    }
  }

  lemma {:induction false} DroppedNext(fields: seq<Field>, names: set<Name>, n: nat)
    requires n < |fields|
    ensures Dropped(fields[..n + 1], names) ==
            Dropped(fields[..n], names) + if fields[n].name in names then [] else [fields[n].name]
  {
    if n == 0 {
      assert fields[..1] == [fields[0]] && [fields[0]][1..] == [];
    } else {
      assert fields[..n][1..] == fields[1..][..n - 1] && fields[..n + 1][1..] == fields[1..][..n];
      DroppedNext(fields[1..], names, n - 1);
    }
  }

  /** Walk the Arrow columns, then the catalog's columns. */
  method ReconcileSchema(arrow: seq<ArrowField>, catalog: Schema, names: seq<Name>,
                         accepts: (seq<Field>, seq<FieldId>) -> bool)
      returns (r: Result<Reconciliation, Error>)
    ensures r == Reconcile(arrow, catalog, names, accepts)
  {
    var catalogFields := ByName(catalog.fields);
    var fields: seq<Field>, added: seq<Name>, dropped: seq<Name> := [], [], [];
    var nextFieldId := catalog.highest + 1;
    for i := 0 to |arrow|
      invariant Reconciled(arrow[..i], catalogFields, catalog.highest + 1) == Ok(fields)
      invariant added == Added(arrow[..i], catalogFields) && nextFieldId == catalog.highest + 1 + |added|
    {
      ReconciledNext(arrow, catalogFields, catalog.highest + 1, i);
      AddedNext(arrow, catalogFields, i);
      var a := arrow[i];
      if a.name in catalogFields {
        fields := fields + [catalogFields[a.name]];
      } else {
        if a.converted == None {
          ReconciledFails(arrow, catalogFields, catalog.highest + 1, i + 1);
          return Err(UnsupportedType);
        }
        fields := fields + [Field(nextFieldId, a.name, a.converted.value, false)];
        added := added + [a.name];
        nextFieldId := nextFieldId + 1;
      }
    }
    assert arrow[..|arrow|] == arrow;
    for i := 0 to |catalog.fields|
      invariant dropped == Dropped(catalog.fields[..i], ArrowNames(arrow))
    {
      DroppedNext(catalog.fields, ArrowNames(arrow), i);
      if catalog.fields[i].name !in ArrowNames(arrow) {
        dropped := dropped + [catalog.fields[i].name];
      }
    }
    assert catalog.fields[..|catalog.fields|] == catalog.fields;
    var ids := ResolveIdentifiers(fields, names);
    if added == [] && dropped == [] && SameIds(ids, catalog.identifiers) {
      return Ok(UpToDate);
    }
    if !accepts(fields, ids) {
      return Err(BuilderRefused);
    }
    return Ok(Evolved(Schema(fields, IdSet(ids), Highest(fields)), added, dropped));
  }

  // ------------------------------------------------------------------
  // What the new schema is
  // ------------------------------------------------------------------

  /** Field `i` of the result: a kept column unchanged, or a new optional one with a fresh id. */
  lemma {:induction false} ReconciledAt(arrow: seq<ArrowField>, catalog: map<Name, Field>, next: FieldId, i: nat)
    requires Reconciled(arrow, catalog, next).Ok? && i < |arrow|
    ensures var fields := Reconciled(arrow, catalog, next).value;
            && |fields| == |arrow|
            && (arrow[i].name in catalog ==> fields[i] == catalog[arrow[i].name])
            && (arrow[i].name !in catalog ==>
                  && arrow[i].converted.Some? && !fields[i].required
                  && fields[i] == Field(next + |Added(arrow[..i], catalog)|, arrow[i].name,
                                        arrow[i].converted.value, false))
    decreases |arrow|
  {
    var rest := arrow[1..];
    var after := if arrow[0].name in catalog then next else next + 1;
    if i > 0 {
      ReconciledAt(rest, catalog, after, i - 1);
      assert arrow[..i][1..] == rest[..i - 1];
    } else if rest != [] {
      ReconciledAt(rest, catalog, after, 0);
    }
  }

  lemma {:induction false} AddedGrows(arrow: seq<ArrowField>, catalog: map<Name, Field>, i: nat, j: nat)
    requires i < j <= |arrow| && arrow[i].name !in catalog
    ensures |Added(arrow[..i], catalog)| < |Added(arrow[..j], catalog)|
    decreases i
  {
    assert arrow[..j][1..] == arrow[1..][..j - 1];
    if i > 0 {
      assert arrow[..i][1..] == arrow[1..][..i - 1];
      AddedGrows(arrow[1..], catalog, i - 1, j - 1);
    }
  }

  lemma {:induction false} ColumnAt(arrow: seq<ArrowField>, s: Schema, i: nat)
    requires ValidSchema(s) && Reconciled(arrow, ByName(s.fields), s.highest + 1).Ok? && i < |arrow|
    ensures var fields := Reconciled(arrow, ByName(s.fields), s.highest + 1).value;
            && |fields| == |arrow| && fields[i].name == arrow[i].name
            && (arrow[i].name in FieldNames(s.fields) ==> fields[i] in s.fields)
            && (arrow[i].name !in FieldNames(s.fields) ==> fields[i].id > s.highest && !fields[i].required)
  {
    ByNameHolds(s.fields);
    ReconciledAt(arrow, ByName(s.fields), s.highest + 1, i);
    if arrow[i].name in ByName(s.fields) {
      KeptIsAField(s.fields, arrow[i].name);
    }
  }

  lemma {:induction false} KeptColumn(arrow: seq<ArrowField>, s: Schema, f: Field)
    requires ValidSchema(s) && Reconciled(arrow, ByName(s.fields), s.highest + 1).Ok?
    requires f in s.fields && f.name in ArrowNames(arrow)
    ensures f in Reconciled(arrow, ByName(s.fields), s.highest + 1).value
  {
    ByNameHolds(s.fields);
    var a :| a in arrow && a.name == f.name;
    var i :| 0 <= i < |arrow| && arrow[i] == a;
    ReconciledAt(arrow, ByName(s.fields), s.highest + 1, i);
  }

  /** Names follow the Arrow order, kept columns keep id and type, new ids are fresh, and no id occurs twice. */
  lemma {:induction false} EvolvedColumns(arrow: seq<ArrowField>, s: Schema)
    requires ValidSchema(s) && DistinctArrow(arrow) && Reconciled(arrow, ByName(s.fields), s.highest + 1).Ok?
    ensures var fields := Reconciled(arrow, ByName(s.fields), s.highest + 1).value;
            && |fields| == |arrow|
            && (forall i :: 0 <= i < |arrow| ==> fields[i].name == arrow[i].name)
            && (forall f <- s.fields :: f.name in ArrowNames(arrow) ==> f in fields)
            && (forall f <- fields :: f in s.fields ||
                  (f.name !in FieldNames(s.fields) && f.id > s.highest && !f.required))
            && DistinctNames(fields) && DistinctIds(fields)
  {
    var fields := Reconciled(arrow, ByName(s.fields), s.highest + 1).value;
    if arrow != [] {
      ColumnAt(arrow, s, 0);
    }
    forall i | 0 <= i < |arrow|
      ensures fields[i].name == arrow[i].name
      ensures fields[i] in s.fields
                || (fields[i].name !in FieldNames(s.fields) && fields[i].id > s.highest && !fields[i].required)
    {
      ColumnAt(arrow, s, i);
    }
    forall f | f in s.fields && f.name in ArrowNames(arrow) ensures f in fields {
      KeptColumn(arrow, s, f);
    }
    forall i, j | 0 <= i < j < |fields| ensures fields[i].id != fields[j].id {
      IdsDiffer(arrow, s, i, j);
    }
  }

  lemma {:induction false} KeptIsAField(fields: seq<Field>, name: Name)
    requires DistinctNames(fields) && name in ByName(fields)
    ensures ByName(fields)[name] in fields && ByName(fields)[name].name == name
  {
    ByNameHolds(fields);
    var f :| f in fields && f.name == name;
  }

  lemma {:induction false} IdsDiffer(arrow: seq<ArrowField>, s: Schema, i: nat, j: nat)
    requires ValidSchema(s) && DistinctArrow(arrow) && Reconciled(arrow, ByName(s.fields), s.highest + 1).Ok?
    requires i < j < |arrow| == |Reconciled(arrow, ByName(s.fields), s.highest + 1).value|
    ensures var fields := Reconciled(arrow, ByName(s.fields), s.highest + 1).value; fields[i].id != fields[j].id
  {
    var catalog := ByName(s.fields);
    ReconciledAt(arrow, catalog, s.highest + 1, i);
    ReconciledAt(arrow, catalog, s.highest + 1, j);
    var a, b := arrow[i].name, arrow[j].name;
    if a in catalog {
      KeptIsAField(s.fields, a);
    }
    if b in catalog {
      KeptIsAField(s.fields, b);
    }
    if a in catalog && b in catalog {
      var k :| 0 <= k < |s.fields| && s.fields[k] == catalog[a];
      var l :| 0 <= l < |s.fields| && s.fields[l] == catalog[b];
      assert k != l;
    } else if a !in catalog && b !in catalog {
      AddedGrows(arrow, catalog, i, j);
    }
  }

  lemma {:induction false} AddedNames(arrow: seq<ArrowField>, catalog: map<Name, Field>)
    ensures forall n :: n in Added(arrow, catalog) <==> n in ArrowNames(arrow) && n !in catalog
  {
    if arrow != [] {
      AddedNames(arrow[1..], catalog);
      assert arrow == [arrow[0]] + arrow[1..];
    }
  }

  lemma {:induction false} DroppedNames(fields: seq<Field>, names: set<Name>)
    ensures forall n :: n in Dropped(fields, names) <==> n in FieldNames(fields) && n !in names
  {
    if fields != [] {
      DroppedNames(fields[1..], names);
      assert fields == [fields[0]] + fields[1..];
    }
  }

  /** Columns are reported as added and dropped by name, exactly. */
  lemma {:induction false} ReportedNames(arrow: seq<ArrowField>, s: Schema)
    requires ValidSchema(s)
    ensures forall n :: n in Added(arrow, ByName(s.fields)) <==> n in ArrowNames(arrow) - FieldNames(s.fields)
    ensures forall n :: n in Dropped(s.fields, ArrowNames(arrow)) <==> n in FieldNames(s.fields) - ArrowNames(arrow)
  {
    ByNameHolds(s.fields);
    AddedNames(arrow, ByName(s.fields));
    DroppedNames(s.fields, ArrowNames(arrow));
  }

  // ------------------------------------------------------------------
  // Fixpoint
  // ------------------------------------------------------------------

  lemma {:induction false} NothingDropped(fields: seq<Field>, names: set<Name>)
    requires forall f <- fields :: f.name in names
    ensures Dropped(fields, names) == []
  {
    if fields != [] {
      assert fields[0] in fields && forall f <- fields[1..] :: f in fields;
      NothingDropped(fields[1..], names);
    }
  }

  lemma {:induction false} NothingNew(arrow: seq<ArrowField>, catalog: map<Name, Field>, next: FieldId)
    requires forall a <- arrow :: a.name in catalog
    ensures Reconciled(arrow, catalog, next).Ok? && Added(arrow, catalog) == []
    decreases |arrow|
  {
    if arrow != [] {
      assert arrow[0] in arrow && forall a <- arrow[1..] :: a in arrow;
      NothingNew(arrow[1..], catalog, next);
    }
  }

  /** With the same columns, in whatever order, identifiers resolve to the same ids. */
  lemma {:induction false} SameResolution(a: seq<Field>, b: seq<Field>, names: seq<Name>)
    requires DistinctNames(a) && DistinctNames(b) && forall f :: f in a <==> f in b
    ensures ResolveIdentifiers(a, names) == ResolveIdentifiers(b, names)
  {
    if names != [] {
      SameResolution(a, b, names[1..]);
      FindHolds(a, names[0]);
      FindHolds(b, names[0]);
      if Find(a, names[0]).Some? {
        var f, g := Find(a, names[0]).value, Find(b, names[0]).value;
        var i :| 0 <= i < |b| && b[i] == f;
        var j :| 0 <= j < |b| && b[j] == g;
      }
    }
  }

  /** When nothing was added or dropped, the reconciled columns are the catalog's columns. */
  lemma {:induction false} SameColumns(arrow: seq<ArrowField>, s: Schema)
    requires ValidSchema(s) && DistinctArrow(arrow) && ArrowNames(arrow) == FieldNames(s.fields)
    ensures Reconciled(arrow, ByName(s.fields), s.highest + 1).Ok?
    ensures forall f :: f in Reconciled(arrow, ByName(s.fields), s.highest + 1).value <==> f in s.fields
    ensures Added(arrow, ByName(s.fields)) == [] && Dropped(s.fields, ArrowNames(arrow)) == []
  {
    ByNameHolds(s.fields);
    forall a | a in arrow ensures a.name in ByName(s.fields) {
      assert a.name in ArrowNames(arrow);
    }
    NothingNew(arrow, ByName(s.fields), s.highest + 1);
    EvolvedColumns(arrow, s);
    forall f | f in s.fields ensures f.name in ArrowNames(arrow) {
      assert f.name in FieldNames(s.fields);
    }
    NothingDropped(s.fields, ArrowNames(arrow));
    var fields := Reconciled(arrow, ByName(s.fields), s.highest + 1).value;
    forall f | f in fields ensures f in s.fields {
      var i :| 0 <= i < |fields| && fields[i] == f;
      assert arrow[i] in arrow && f.name in ArrowNames(arrow);
    }
    forall f | f in s.fields ensures f in fields {
      assert f.name in FieldNames(s.fields);
    }
  }

  lemma {:induction false} DifferentNamesReported(arrow: seq<ArrowField>, s: Schema)
    requires ValidSchema(s) && ArrowNames(arrow) != FieldNames(s.fields)
    ensures Added(arrow, ByName(s.fields)) != [] || Dropped(s.fields, ArrowNames(arrow)) != []
  {
    ReportedNames(arrow, s);
    if n :| n in ArrowNames(arrow) && n !in FieldNames(s.fields) {
      assert n in Added(arrow, ByName(s.fields));
    } else {
      assert ArrowNames(arrow) <= FieldNames(s.fields);
      var n :| n in FieldNames(s.fields) && n !in ArrowNames(arrow);
      assert n in Dropped(s.fields, ArrowNames(arrow));
    }
  }

  lemma {:induction false} NothingReported(arrow: seq<ArrowField>, s: Schema)
    requires ValidSchema(s) && DistinctArrow(arrow) && ArrowNames(arrow) == FieldNames(s.fields)
    ensures Added(arrow, ByName(s.fields)) == [] && Dropped(s.fields, ArrowNames(arrow)) == []
  {
    SameColumns(arrow, s);
  }

  lemma {:induction false} DecidedByReports(arrow: seq<ArrowField>, s: Schema, names: seq<Name>,
                                            accepts: (seq<Field>, seq<FieldId>) -> bool)
    ensures Reconcile(arrow, s, names, accepts) == Ok(UpToDate) <==>
            && Reconciled(arrow, ByName(s.fields), s.highest + 1).Ok?
            && Added(arrow, ByName(s.fields)) == [] && Dropped(s.fields, ArrowNames(arrow)) == []
            && SameIds(ResolveIdentifiers(Reconciled(arrow, ByName(s.fields), s.highest + 1).value, names),
                       s.identifiers)
  {
  }

  lemma {:induction false} SameColumnsResolve(arrow: seq<ArrowField>, s: Schema, names: seq<Name>)
    requires ValidSchema(s) && DistinctArrow(arrow) && ArrowNames(arrow) == FieldNames(s.fields)
    ensures Reconciled(arrow, ByName(s.fields), s.highest + 1).Ok?
    ensures ResolveIdentifiers(Reconciled(arrow, ByName(s.fields), s.highest + 1).value, names) ==
            ResolveIdentifiers(s.fields, names)
  {
    SameColumns(arrow, s);
    EvolvedColumns(arrow, s);
    SameResolution(Reconciled(arrow, ByName(s.fields), s.highest + 1).value, s.fields, names);
  }

  /** Reconciliation says "up to date" exactly when the columns agree by name and the identifiers by id. */
  lemma {:induction false} UpToDateExactly(arrow: seq<ArrowField>, s: Schema, names: seq<Name>,
                                           accepts: (seq<Field>, seq<FieldId>) -> bool)
    requires ValidSchema(s) && DistinctArrow(arrow)
    ensures Reconcile(arrow, s, names, accepts) == Ok(UpToDate) <==>
            ArrowNames(arrow) == FieldNames(s.fields) && SameIds(ResolveIdentifiers(s.fields, names), s.identifiers)
  {
    if ArrowNames(arrow) == FieldNames(s.fields) {
      SameColumnsResolve(arrow, s, names);
      NothingReported(arrow, s);
    } else {
      DifferentNamesReported(arrow, s);
    }
    DecidedByReports(arrow, s, names, accepts);
  }

  lemma {:induction false} HighestBounds(fields: seq<Field>)
    ensures forall f <- fields :: f.id <= Highest(fields)
  {
    if fields != [] {
      HighestBounds(fields[1..]);
      assert fields == [fields[0]] + fields[1..];
    }
  }

  ghost predicate DistinctSeq(names: seq<Name>) {
    forall i, j :: 0 <= i < j < |names| ==> names[i] != names[j]
  }

  lemma {:induction false} OtherFieldOtherId(fields: seq<Field>, f: Field, g: Field)
    requires DistinctIds(fields) && f in fields && g in fields && f != g
    ensures f.id != g.id
  {
    var i :| 0 <= i < |fields| && fields[i] == f;
    var j :| 0 <= j < |fields| && fields[j] == g;
  }

  lemma {:induction false} NotResolved(fields: seq<Field>, names: seq<Name>, f: Field)
    requires DistinctIds(fields) && f in fields && f.name !in names
    ensures f.id !in ResolveIdentifiers(fields, names)
  {
    if names != [] {
      assert names[0] in names && forall n <- names[1..] :: n in names;
      NotResolved(fields, names[1..], f);
      FindHolds(fields, names[0]);
      if Find(fields, names[0]).Some? {
        OtherFieldOtherId(fields, f, Find(fields, names[0]).value);
      }
    }
  }

  /** Distinct names resolve to distinct ids. */
  lemma {:induction false} ResolvedOnce(fields: seq<Field>, names: seq<Name>)
    requires DistinctIds(fields) && DistinctSeq(names)
    ensures SameIds(ResolveIdentifiers(fields, names), IdSet(ResolveIdentifiers(fields, names)))
  {
    if names != [] {
      var ids, rest := ResolveIdentifiers(fields, names), ResolveIdentifiers(fields, names[1..]);
      ResolvedOnce(fields, names[1..]);
      FindHolds(fields, names[0]);
      if Find(fields, names[0]).Some? {
        var f := Find(fields, names[0]).value;
        NotResolved(fields, names[1..], f);
        assert ids == [f.id] + rest;
        assert IdSet(ids) == {f.id} + IdSet(rest);
      } else {
        assert ids == [] + rest;
      }
    }
  }

  /** Reconciling with the evolved schema finds nothing left to do. */
  lemma {:induction false} EvolvedIsAFixpoint(arrow: seq<ArrowField>, s: Schema, names: seq<Name>,
                                              accepts: (seq<Field>, seq<FieldId>) -> bool)
    requires ValidSchema(s) && DistinctArrow(arrow) && DistinctSeq(names)
    requires Reconcile(arrow, s, names, accepts).Ok? && Reconcile(arrow, s, names, accepts).value.Evolved?
    ensures Reconcile(arrow, Reconcile(arrow, s, names, accepts).value.schema, names, accepts) == Ok(UpToDate)
  {
    var evolved := Reconcile(arrow, s, names, accepts).value.schema;
    EvolvedColumns(arrow, s);
    HighestBounds(evolved.fields);
    NamesInOrder(arrow, evolved.fields);
    ResolvedOnce(evolved.fields, names);
    UpToDateExactly(arrow, evolved, names, accepts);
  }

  lemma {:induction false} NamesInOrder(arrow: seq<ArrowField>, fields: seq<Field>)
    requires |fields| == |arrow| && forall i :: 0 <= i < |arrow| ==> fields[i].name == arrow[i].name
    ensures ArrowNames(arrow) == FieldNames(fields)
  {
    forall n | n in ArrowNames(arrow) ensures n in FieldNames(fields) {
      var a :| a in arrow && a.name == n;
      var i :| 0 <= i < |arrow| && arrow[i] == a;
      assert fields[i] in fields;
    }
    forall n | n in FieldNames(fields) ensures n in ArrowNames(arrow) {
      var f :| f in fields && f.name == n;
      var i :| 0 <= i < |fields| && fields[i] == f;
      assert arrow[i] in arrow;
    }
  }

  // ------------------------------------------------------------------
  // Committing the difference
  // ------------------------------------------------------------------

  function Without(fields: seq<Field>, names: seq<Name>): seq<Field> {
    if fields == [] then []
    else (if fields[0].name in names then [] else [fields[0]]) + Without(fields[1..], names)
  }

  function Appended(names: seq<Name>, evolved: seq<Field>, next: FieldId): seq<Field> {
    if names == [] then []
    else
      (match Find(evolved, names[0]) case Some(f) => [Field(next, f.name, f.typ, false)] case None => [])
      + Appended(names[1..], evolved, next + 1)
  }

  /**
   Only added and dropped columns are sent to the catalog, which assigns ids
   of its own; identifiers cannot be changed. `current` are the names of the
   identifier columns in the order the catalog yields them.
   */
  function CommitSchemaUpdate(s: Schema, current: seq<Name>, names: seq<Name>, change: Reconciliation,
                              lastColumnId: FieldId)
    : Result<Schema, Error>
    requires change.Evolved?
  {
    if names != [] && names != current then Err(FeatureUnsupported)
    else
      var fields := Without(s.fields, change.columnsDropped) +
                    Appended(change.columnsAdded, change.schema.fields, lastColumnId + 1);
      Ok(Schema(fields, s.identifiers, Highest(fields)))
  }

  /** Asking for no identifiers on a table that has some is accepted, changes nothing, and comes back every time. */
  lemma {:induction false} ClearedIdentifiersNeverSettle(arrow: seq<ArrowField>, s: Schema, current: seq<Name>,
                                                         lastColumnId: FieldId,
                                                         accepts: (seq<Field>, seq<FieldId>) -> bool)
    requires s.identifiers != {}
    ensures Reconcile(arrow, s, [], accepts) != Ok(UpToDate)
    ensures Reconcile(arrow, s, [], accepts).Ok? ==>
              var committed := CommitSchemaUpdate(s, current, [], Reconcile(arrow, s, [], accepts).value, lastColumnId);
              committed.Ok? && Reconcile(arrow, committed.value, [], accepts) != Ok(UpToDate)
  {
    NoIdsDiffer(s.identifiers);
    var r := Reconcile(arrow, s, [], accepts);
    DecidedByReports(arrow, s, [], accepts);
    if r.Ok? {
      var committed := CommitSchemaUpdate(s, current, [], r.value, lastColumnId).value;
      DecidedByReports(arrow, committed, [], accepts);
    }
  }

  lemma {:induction false} NoIdsDiffer(ids: set<FieldId>)
    requires ids != {}
    ensures !SameIds([], ids)
  {
    assert |multiset(ids)| == |ids| != 0;
    var none: seq<FieldId> := [];
    assert |multiset(none)| == 0;
  }

  // ------------------------------------------------------------------
  // When a committed change settles
  // ------------------------------------------------------------------

  lemma {:induction false} WithoutMembers(fields: seq<Field>, names: seq<Name>)
    ensures forall f :: f in Without(fields, names) <==> f in fields && f.name !in names
  {
    if fields != [] {
      WithoutMembers(fields[1..], names);
      assert fields == [fields[0]] + fields[1..];
    }
  }

  lemma {:induction false} WithoutDistinct(fields: seq<Field>, names: seq<Name>)
    requires DistinctNames(fields) && DistinctIds(fields)
    ensures DistinctNames(Without(fields, names)) && DistinctIds(Without(fields, names))
  {
    if fields != [] {
      WithoutDistinct(fields[1..], names);
      WithoutMembers(fields[1..], names);
      assert forall f <- fields[1..] :: f.name != fields[0].name && f.id != fields[0].id;
    }
  }

  /** Every added column gets the next id of the catalog's. */
  lemma {:induction false} AppendedAt(names: seq<Name>, evolved: seq<Field>, next: FieldId)
    requires forall n <- names :: n in FieldNames(evolved)
    ensures |Appended(names, evolved, next)| == |names|
    ensures forall i :: 0 <= i < |names| ==>
              Appended(names, evolved, next)[i].name == names[i] && Appended(names, evolved, next)[i].id == next + i
    decreases |names|
  {
    if names != [] {
      assert names[0] in names && forall n <- names[1..] :: n in names;
      AppendedAt(names[1..], evolved, next + 1);
      FindHolds(evolved, names[0]);
    }
  }

  lemma {:induction false} AddedDistinct(arrow: seq<ArrowField>, catalog: map<Name, Field>)
    requires DistinctArrow(arrow)
    ensures DistinctSeq(Added(arrow, catalog))
  {
    if arrow != [] {
      AddedDistinct(arrow[1..], catalog);
      AddedNames(arrow[1..], catalog);
      assert forall a <- arrow[1..] :: a.name != arrow[0].name;
    }
  }

  lemma {:induction false} JoinDistinct(a: seq<Field>, b: seq<Field>)
    requires DistinctNames(a) && DistinctIds(a) && DistinctNames(b) && DistinctIds(b)
    requires forall f <- a, g <- b :: f.name != g.name && f.id != g.id
    ensures DistinctNames(a + b) && DistinctIds(a + b)
  {
    forall i, j | 0 <= i < j < |a + b| ensures (a + b)[i].name != (a + b)[j].name && (a + b)[i].id != (a + b)[j].id {
      if i < |a| <= j {
        assert a[i] in a && b[j - |a|] in b;
      }
    }
  }

  /** A change that the schema builder and the catalog accept. */
  ghost predicate Accepted(arrow: seq<ArrowField>, s: Schema, current: seq<Name>, names: seq<Name>,
                           lastColumnId: FieldId, accepts: (seq<Field>, seq<FieldId>) -> bool) {
    && Reconcile(arrow, s, names, accepts).Ok? && Reconcile(arrow, s, names, accepts).value.Evolved?
    && CommitSchemaUpdate(s, current, names, Reconcile(arrow, s, names, accepts).value, lastColumnId).Ok?
  }

  function CommittedSchema(arrow: seq<ArrowField>, s: Schema, current: seq<Name>, names: seq<Name>,
                           lastColumnId: FieldId, accepts: (seq<Field>, seq<FieldId>) -> bool): Schema
    requires Accepted(arrow, s, current, names, lastColumnId, accepts)
  {
    CommitSchemaUpdate(s, current, names, Reconcile(arrow, s, names, accepts).value, lastColumnId).value
  }

  lemma {:induction false} AppendedColumns(names: seq<Name>, evolved: seq<Field>, next: FieldId)
    requires DistinctSeq(names) && forall n <- names :: n in FieldNames(evolved)
    ensures var b := Appended(names, evolved, next);
            && DistinctNames(b) && DistinctIds(b) && (forall g <- b :: g.name in names && g.id >= next)
            && forall n <- names :: n in FieldNames(b)
  {
    var b := Appended(names, evolved, next);
    AppendedAt(names, evolved, next);
    forall n | n in names ensures n in FieldNames(b) {
      var i :| 0 <= i < |names| && names[i] == n;
      assert b[i] in b;
    }
  }

  /** Some columns dropped, others with new names and ids put behind. */
  lemma {:induction false} DroppedAndAdded(s: Schema, dropped: seq<Name>, b: seq<Field>)
    requires ValidSchema(s) && DistinctNames(b) && DistinctIds(b)
    requires forall g <- b :: g.name !in FieldNames(s.fields) && g.id > s.highest
    ensures DistinctNames(Without(s.fields, dropped) + b) && DistinctIds(Without(s.fields, dropped) + b)
  {
    var a := Without(s.fields, dropped);
    WithoutMembers(s.fields, dropped);
    WithoutDistinct(s.fields, dropped);
    forall f, g | f in a && g in b ensures f.name != g.name && f.id != g.id {
      assert f.name in FieldNames(s.fields) && f.id <= s.highest;
    }
    JoinDistinct(a, b);
  }

  lemma {:induction false} NamesAfter(s: Schema, dropped: seq<Name>, b: seq<Field>, name: Name)
    ensures name in FieldNames(Without(s.fields, dropped) + b) <==>
            (name in FieldNames(s.fields) && name !in dropped) || name in FieldNames(b)
  {
    var a := Without(s.fields, dropped);
    WithoutMembers(s.fields, dropped);
    if name in FieldNames(a + b) {
      var f :| f in a + b && f.name == name;
      assert f in a || f in b;
    }
    if f :| f in s.fields && f.name == name && name !in dropped {
      assert f in a && f in a + b;
    }
    if g :| g in b && g.name == name {
      assert g in a + b;
    }
  }

  lemma {:induction false} AddedInEvolved(arrow: seq<ArrowField>, s: Schema, evolved: seq<Field>)
    requires ValidSchema(s) && ArrowNames(arrow) == FieldNames(evolved)
    ensures forall n <- Added(arrow, ByName(s.fields)) :: n in FieldNames(evolved) && n !in FieldNames(s.fields)
  {
    ReportedNames(arrow, s);
  }

  lemma {:induction false} EvolvedNames(arrow: seq<ArrowField>, s: Schema)
    requires ValidSchema(s) && DistinctArrow(arrow) && Reconciled(arrow, ByName(s.fields), s.highest + 1).Ok?
    ensures ArrowNames(arrow) == FieldNames(Reconciled(arrow, ByName(s.fields), s.highest + 1).value)
  {
    EvolvedColumns(arrow, s);
    NamesInOrder(arrow, Reconciled(arrow, ByName(s.fields), s.highest + 1).value);
  }

  /** The added columns as the catalog numbers them. */
  function NewColumns(arrow: seq<ArrowField>, s: Schema, evolved: seq<Field>, lastColumnId: FieldId): seq<Field> {
    Appended(Added(arrow, ByName(s.fields)), evolved, lastColumnId + 1)
  }

  lemma {:induction false} NewColumnsAreNew(arrow: seq<ArrowField>, s: Schema, evolved: seq<Field>,
                                            lastColumnId: FieldId)
    requires ValidSchema(s) && DistinctArrow(arrow) && lastColumnId >= s.highest
    requires ArrowNames(arrow) == FieldNames(evolved)
    ensures var b := NewColumns(arrow, s, evolved, lastColumnId);
            && DistinctNames(b) && DistinctIds(b)
            && (forall g <- b :: g.name !in FieldNames(s.fields) && g.id > s.highest)
            && (forall g <- b :: g.name in Added(arrow, ByName(s.fields)))
            && forall n <- Added(arrow, ByName(s.fields)) :: n in FieldNames(b)
  {
    AddedInEvolved(arrow, s, evolved);
    AddedDistinct(arrow, ByName(s.fields));
    AppendedColumns(Added(arrow, ByName(s.fields)), evolved, lastColumnId + 1);
  }

  lemma {:induction false} ValidAfter(s: Schema, dropped: seq<Name>, b: seq<Field>)
    requires ValidSchema(s) && DistinctNames(b) && DistinctIds(b)
    requires forall g <- b :: g.name !in FieldNames(s.fields) && g.id > s.highest
    ensures var fields := Without(s.fields, dropped) + b; ValidSchema(Schema(fields, s.identifiers, Highest(fields)))
    ensures forall f <- s.fields :: f.name !in dropped ==> f in Without(s.fields, dropped) + b
  {
    DroppedAndAdded(s, dropped, b);
    HighestBounds(Without(s.fields, dropped) + b);
    WithoutMembers(s.fields, dropped);
  }

  lemma {:induction false} CommittedIs(arrow: seq<ArrowField>, s: Schema, current: seq<Name>, names: seq<Name>,
                                       lastColumnId: FieldId, accepts: (seq<Field>, seq<FieldId>) -> bool)
    requires Accepted(arrow, s, current, names, lastColumnId, accepts)
    ensures Reconciled(arrow, ByName(s.fields), s.highest + 1).Ok?
    ensures var evolved := Reconciled(arrow, ByName(s.fields), s.highest + 1).value;
            var fields := Without(s.fields, Dropped(s.fields, ArrowNames(arrow)))
                          + NewColumns(arrow, s, evolved, lastColumnId);
            CommittedSchema(arrow, s, current, names, lastColumnId, accepts) ==
            Schema(fields, s.identifiers, Highest(fields))
  {
  }

  /** What the catalog ends up with: the kept columns unchanged, then the new ones. */
  lemma {:induction false} CommittedColumns(arrow: seq<ArrowField>, s: Schema, current: seq<Name>, names: seq<Name>,
                                            lastColumnId: FieldId, accepts: (seq<Field>, seq<FieldId>) -> bool)
    requires ValidSchema(s) && DistinctArrow(arrow) && lastColumnId >= s.highest
    requires Accepted(arrow, s, current, names, lastColumnId, accepts)
    ensures var t := CommittedSchema(arrow, s, current, names, lastColumnId, accepts);
            && ValidSchema(t) && FieldNames(t.fields) == ArrowNames(arrow) && t.identifiers == s.identifiers
            && forall f <- s.fields :: f.name in ArrowNames(arrow) ==> f in t.fields
  {
    CommittedIs(arrow, s, current, names, lastColumnId, accepts);
    var evolved := Reconciled(arrow, ByName(s.fields), s.highest + 1).value;
    var b := NewColumns(arrow, s, evolved, lastColumnId);
    EvolvedNames(arrow, s);
    NewColumnsAreNew(arrow, s, evolved, lastColumnId);
    ValidAfter(s, Dropped(s.fields, ArrowNames(arrow)), b);
    CommittedNames(arrow, s, b);
  }

  lemma {:induction false} CommittedNames(arrow: seq<ArrowField>, s: Schema, b: seq<Field>)
    requires ValidSchema(s)
    requires forall g <- b :: g.name in Added(arrow, ByName(s.fields))
    requires forall n <- Added(arrow, ByName(s.fields)) :: n in FieldNames(b)
    ensures FieldNames(Without(s.fields, Dropped(s.fields, ArrowNames(arrow))) + b) == ArrowNames(arrow)
    ensures forall f <- s.fields :: f.name in ArrowNames(arrow) ==> f.name !in Dropped(s.fields, ArrowNames(arrow))
  {
    var dropped := Dropped(s.fields, ArrowNames(arrow));
    ReportedNames(arrow, s);
    forall n ensures n in FieldNames(Without(s.fields, dropped) + b) <==> n in ArrowNames(arrow) {
      NamesAfter(s, dropped, b, n);
    }
  }

  /**
   After an accepted change, reconciling with what the catalog has now finds
   nothing to do exactly when the identifiers asked for resolve to those that
   the table carries.
   */
  lemma {:induction false} CommittedIsAFixpointExactly(arrow: seq<ArrowField>, s: Schema, current: seq<Name>,
                                                       names: seq<Name>, lastColumnId: FieldId,
                                                       accepts: (seq<Field>, seq<FieldId>) -> bool)
    requires ValidSchema(s) && DistinctArrow(arrow) && lastColumnId >= s.highest
    requires Accepted(arrow, s, current, names, lastColumnId, accepts)
    ensures var t := CommittedSchema(arrow, s, current, names, lastColumnId, accepts);
            Reconcile(arrow, t, names, accepts) == Ok(UpToDate) <==>
              SameIds(ResolveIdentifiers(t.fields, names), s.identifiers)
  {
    CommittedColumns(arrow, s, current, names, lastColumnId, accepts);
    UpToDateExactly(arrow, CommittedSchema(arrow, s, current, names, lastColumnId, accepts), names, accepts);
  }

  lemma {:induction false} FoundInBoth(a: seq<Field>, b: seq<Field>, name: Name)
    requires DistinctNames(b) && name in FieldNames(a) && forall f <- a :: f.name == name ==> f in b
    ensures Find(a, name) == Find(b, name) && Find(b, name).Some?
  {
    FindHolds(a, name);
    var f := Find(a, name).value;
    assert f in b && name in FieldNames(b);
    FindHolds(b, name);
    var g := Find(b, name).value;
    var i :| 0 <= i < |b| && b[i] == f;
    var j :| 0 <= j < |b| && b[j] == g;
  }

  /** Names resolve in the new columns as in the old, except for those that were dropped. */
  lemma {:induction false} KeptResolve(former: seq<Field>, next: seq<Field>, names: seq<Name>)
    requires DistinctNames(next) && forall n <- names :: n in FieldNames(former)
    requires forall f <- former :: f.name in FieldNames(next) ==> f in next
    ensures |ResolveIdentifiers(former, names)| == |names|
    ensures |ResolveIdentifiers(next, names)| <= |names|
    ensures (forall n <- names :: n in FieldNames(next)) ==>
              ResolveIdentifiers(next, names) == ResolveIdentifiers(former, names)
    ensures (exists n <- names :: n !in FieldNames(next)) ==> |ResolveIdentifiers(next, names)| < |names|
  {
    if names != [] {
      assert names == [names[0]] + names[1..];
      KeptResolve(former, next, names[1..]);
      FindHolds(former, names[0]);
      FindHolds(next, names[0]);
      if names[0] in FieldNames(next) {
        FoundInBoth(former, next, names[0]);
      }
    }
  }

  /**
   With `current` the names of the table's identifier columns, an accepted
   change settles exactly when no identifiers are asked for and there are none,
   or they are asked for and no identifier column is dropped.
   */
  lemma {:induction false} SettlesExactly(arrow: seq<ArrowField>, s: Schema, current: seq<Name>, names: seq<Name>,
                                          lastColumnId: FieldId, accepts: (seq<Field>, seq<FieldId>) -> bool)
    requires ValidSchema(s) && DistinctArrow(arrow) && lastColumnId >= s.highest
    requires Accepted(arrow, s, current, names, lastColumnId, accepts)
    requires (forall n <- current :: n in FieldNames(s.fields))
    requires SameIds(ResolveIdentifiers(s.fields, current), s.identifiers)
    ensures Reconcile(arrow, CommittedSchema(arrow, s, current, names, lastColumnId, accepts), names, accepts)
              == Ok(UpToDate) <==>
            if names == [] then s.identifiers == {} else forall n <- names :: n in ArrowNames(arrow)
  {
    var t := CommittedSchema(arrow, s, current, names, lastColumnId, accepts);
    CommittedColumns(arrow, s, current, names, lastColumnId, accepts);
    CommittedIsAFixpointExactly(arrow, s, current, names, lastColumnId, accepts);
    if names == [] {
      if s.identifiers != {} {
        NoIdsDiffer(s.identifiers);
      } else {
        assert multiset(ResolveIdentifiers(t.fields, names)) == multiset(s.identifiers);
      }
    } else {
      assert names == current;
      KeptResolve(s.fields, t.fields, names);
      var before, after := ResolveIdentifiers(s.fields, names), ResolveIdentifiers(t.fields, names);
      assert |multiset(before)| == |before| && |multiset(after)| == |after|;
    }
  }
}
