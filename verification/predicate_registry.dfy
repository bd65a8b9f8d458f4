/** The vocabularies a deployment registers, version by version.

    A new version is checked against the namespace's latest one only. What claims rely
    on is more: every later version keeps what every earlier one said, and a registry
    read back from its rows, in whatever order, is the registry that was written. */
module PredicateRegistry {

  import opened Wrappers
  import opened Ordered

  datatype ValueKind = TextKind | IntegerKind | DecimalKind | DateKind | DateTimeKind | IntervalKind | EntityKind | EnumKind

  datatype ValueType = ValueType(kind: ValueKind, units: seq<string>, variants: seq<string>)

  datatype Cardinality = One | Many(slot: string)

  datatype Stance = Asserted | Negated | Conditional | Unknown

  datatype PredicateDef = PredicateDef(
    name: string, subjects: seq<string>, value: ValueType, cardinality: Cardinality,
    epistemic: seq<Stance>, deprecated: bool)

  datatype PredicateSet = PredicateSet(ns: string, version: nat, subjectKinds: seq<string>, predicates: seq<PredicateDef>)

  datatype Key = Key(ns: string, version: nat)

  type Snapshot = map<Key, PredicateSet>

  datatype Admission = New | Unchanged

  datatype Change = ValueTypeChanged | CardinalityChanged | PredicateRemoved | SubjectKindRemoved

  datatype RegistryError =
    | ReservedNamespace
    | ConflictingVersion(version: nat)
    | NotAfterLatest(version: nat, latest: nat)
    | Incompatible(subject: string, change: Change)

  const RESERVED := "aicortex"

  function KeyOf(d: PredicateSet): Key { Key(d.ns, d.version) }

  // -------------------------------------------------------------- compatibility

  /** The first definition of that name, if any. */
  function FindPredicate(defs: seq<PredicateDef>, name: string): (r: Option<PredicateDef>)
    ensures r.Some? ==> r.value in defs && r.value.name == name
    ensures r == None <==> forall d | d in defs :: d.name != name
    decreases |defs|
  {
    if defs == [] then None
    else if defs[0].name == name then Some(defs[0])
    else FindPredicate(defs[1..], name)
  }

  ghost predicate KeepsDef(was: PredicateDef, now: PredicateDef) {
    && now.cardinality == was.cardinality
    && now.value.kind == was.value.kind
    && (forall u | u in was.value.units :: u in now.value.units)
    && (forall v | v in was.value.variants :: v in now.value.variants)
  }

  /** `later` says everything `earlier` said about subjects, values and slots. */
  ghost predicate Keeps(earlier: PredicateSet, later: PredicateSet) {
    && (forall k | k in earlier.subjectKinds :: k in later.subjectKinds)
    && (forall p | p in earlier.predicates :: KeptIn(p, later))
  }

  ghost predicate KeptIn(p: PredicateDef, later: PredicateSet) {
    FindPredicate(later.predicates, p.name).Some? && KeepsDef(p, FindPredicate(later.predicates, p.name).value)
  }

  lemma {:induction false} KeepsIsTransitive(a: PredicateSet, b: PredicateSet, c: PredicateSet)
    requires Keeps(a, b) && Keeps(b, c)
    ensures Keeps(a, c)
  {
    forall p | p in a.predicates ensures KeptIn(p, c) {
      assert KeptIn(p, b);
      var q := FindPredicate(b.predicates, p.name).value;
      assert KeptIn(q, c);
    }
  }

  function DroppedKind(kinds: seq<string>, later: PredicateSet): (r: Option<RegistryError>)
    ensures r == None <==> forall k | k in kinds :: k in later.subjectKinds
    ensures r.Some? ==> r.value.Incompatible? && r.value.change == SubjectKindRemoved && r.value.subject in kinds
    decreases |kinds|
  {
    if kinds == [] then None
    else if kinds[0] !in later.subjectKinds then Some(Incompatible(kinds[0], SubjectKindRemoved))
    else DroppedKind(kinds[1..], later)
  }

  function ChangedDef(was: PredicateDef, later: PredicateSet): (r: Option<RegistryError>)
    ensures r == None <==> KeptIn(was, later)
    ensures r.Some? ==> r.value.Incompatible?
  {
    match FindPredicate(later.predicates, was.name)
    case None => Some(Incompatible(was.name, PredicateRemoved))
    case Some(now) =>
      if now.cardinality != was.cardinality then Some(Incompatible(was.name, CardinalityChanged))
      else if now.value.kind != was.value.kind
           || (exists u :: u in was.value.units && u !in now.value.units)
           || (exists v :: v in was.value.variants && v !in now.value.variants)
      then Some(Incompatible(was.name, ValueTypeChanged))
      else None
  }

  function ChangedDefs(defs: seq<PredicateDef>, later: PredicateSet): (r: Option<RegistryError>)
    ensures r == None <==> forall p | p in defs :: KeptIn(p, later)
    ensures r.Some? ==> r.value.Incompatible?
    decreases |defs|
  {
    if defs == [] then None
    else if ChangedDef(defs[0], later).Some? then ChangedDef(defs[0], later)
    else ChangedDefs(defs[1..], later)
  }

  /** Whether `later` may follow `earlier`: no error exactly when it keeps everything. */
  function Successor(earlier: PredicateSet, later: PredicateSet): (r: Option<RegistryError>)
    ensures r == None <==> Keeps(earlier, later)
    ensures r.Some? ==> r.value.Incompatible?
  {
    var dropped := DroppedKind(earlier.subjectKinds, later);
    if dropped.Some? then dropped else ChangedDefs(earlier.predicates, later)
  }

  // ------------------------------------------------------------------ admitting

  function Versions(sets: Snapshot, ns: string): set<nat> {
    set k | k in sets && k.ns == ns :: k.version
  }

  function Latest(sets: Snapshot, ns: string): (r: Option<PredicateSet>)
    ensures r == None <==> forall k | k in sets :: k.ns != ns
    ensures r.Some? ==> exists k :: k in sets && sets[k] == r.value && Newest(sets, ns, k)
  {
    var versions := Versions(sets, ns);
    if versions == {} then
      assert forall k | k in sets :: k.ns == ns ==> k.version in versions;
      None
    else
      assert forall k | k in sets && k.ns == ns :: k.version in versions;
      assert Newest(sets, ns, Key(ns, Highest(versions)));
      Some(sets[Key(ns, Highest(versions))])
  }

  ghost predicate Newest(sets: Snapshot, ns: string, k: Key) {
    k in sets && k.ns == ns && forall l | l in sets && l.ns == ns :: l.version <= k.version
  }

  function Check(sets: Snapshot, doc: PredicateSet): Result<Admission, RegistryError> {
    if doc.ns == RESERVED then Err(ReservedNamespace)
    else if KeyOf(doc) in sets then
      if sets[KeyOf(doc)] == doc then Ok(Unchanged) else Err(ConflictingVersion(doc.version))
    else
      match Latest(sets, doc.ns)
      case None => Ok(New)
      case Some(latest) =>
        if doc.version < latest.version then Err(NotAfterLatest(doc.version, latest.version))
        else
          match Successor(latest, doc)
          case Some(e) => Err(e)
          case None => Ok(New)
  }

  function Admitted(sets: Snapshot, doc: PredicateSet): Snapshot {
    if Check(sets, doc) == Ok(New) then sets[KeyOf(doc) := doc] else sets
  }

  /** Documents lie under their own keys, none is reserved, and every version of a
      namespace keeps what every earlier one said. */
  ghost predicate Chained(sets: Snapshot) {
    && (forall k | k in sets :: KeyOf(sets[k]) == k && k.ns != RESERVED)
    && (forall k, l | k in sets && l in sets && k.ns == l.ns && k.version < l.version :: Keeps(sets[k], sets[l]))
  }

  /** The rule looks at the latest version only, and holds along the whole chain. */
  lemma {:induction false} AdmittingKeepsTheChain(sets: Snapshot, doc: PredicateSet)
    requires Chained(sets)
    ensures Chained(Admitted(sets, doc))
  {
    if Check(sets, doc) == Ok(New) {
      var after := sets[KeyOf(doc) := doc];
      forall k, l | k in after && l in after && k.ns == l.ns && k.version < l.version
        ensures Keeps(after[k], after[l])
      {
        if l == KeyOf(doc) {
          EarlierKept(sets, doc, k);
        } else if k == KeyOf(doc) {
          LaterRefused(sets, doc, l);
        }
      }
    }
  }

  lemma {:induction false} EarlierKept(sets: Snapshot, doc: PredicateSet, k: Key)
    requires Chained(sets) && Check(sets, doc) == Ok(New) && k in sets && k.ns == doc.ns
    ensures Keeps(sets[k], doc)
  {
    var latest := Latest(sets, doc.ns).value;
    assert Keeps(latest, doc);
    var top :| top in sets && sets[top] == latest && Newest(sets, doc.ns, top);
    if k.version < top.version {
      KeepsIsTransitive(sets[k], latest, doc);
    } else {
      assert k == top;
    }
  }

  lemma {:induction false} LaterRefused(sets: Snapshot, doc: PredicateSet, l: Key)
    requires Chained(sets) && l in sets && l.ns == doc.ns && doc.version < l.version
    ensures Check(sets, doc) != Ok(New)
  {
    if KeyOf(doc) !in sets && doc.ns != RESERVED {
      var latest := Latest(sets, doc.ns).value;
      var top :| top in sets && sets[top] == latest && Newest(sets, doc.ns, top);
      assert latest.version >= l.version;
    }
  }

  /** A registry after a run of offers, the refused ones changing nothing. */
  function Registered(offers: seq<PredicateSet>): Snapshot
    decreases |offers|
  {
    if offers == [] then map[] else Admitted(Registered(offers[..|offers| - 1]), offers[|offers| - 1])
  }

  lemma {:induction false} RegisteredIsChained(offers: seq<PredicateSet>)
    ensures Chained(Registered(offers))
    decreases |offers|
  {
    if offers != [] {
      RegisteredIsChained(offers[..|offers| - 1]);
      AdmittingKeepsTheChain(Registered(offers[..|offers| - 1]), offers[|offers| - 1]);
    }
  }

  /** What is registered stays, unchanged, whatever is offered afterwards. */
  lemma {:induction false} RegisteredForGood(offers: seq<PredicateSet>, more: seq<PredicateSet>, k: Key)
    requires k in Registered(offers)
    ensures k in Registered(offers + more) && Registered(offers + more)[k] == Registered(offers)[k]
    decreases |more|
  {
    var all := offers + more;
    if more == [] {
      assert all == offers;
    } else {
      var before := more[..|more| - 1];
      RegisteredForGood(offers, before, k);
      assert all[..|all| - 1] == offers + before;
      RegisteredIsChained(offers + before);
    }
  }

  /** The registry as an object: the check and the insertion. */
  class RegistrySnapshot {
    var sets: Snapshot

    constructor ()
      ensures sets == map[]
    {
      sets := map[];
    }

    method Admit(doc: PredicateSet) returns (r: Result<Admission, RegistryError>)
      requires Chained(sets)
      modifies this
      ensures Chained(sets)
      ensures r == Check(old(sets), doc)
      ensures sets == if r == Ok(New) then old(sets)[KeyOf(doc) := doc] else old(sets)
    {
      AdmittingKeepsTheChain(sets, doc);
      r := Check(sets, doc);
      if r == Ok(New) {
        sets := sets[KeyOf(doc) := doc];
      }
    }
  }

  // ----------------------------------------------------------------- rebuilding

  /** Text order; the names are ASCII. */
  predicate AtMost(a: string, b: string)
    decreases |a|
  {
    a == [] || (b != [] && (a[0] < b[0] || (a[0] == b[0] && AtMost(a[1..], b[1..]))))
  }

  lemma {:induction false} TextOrder(a: string, b: string, c: string)
    ensures AtMost(a, b) || AtMost(b, a)
    ensures AtMost(a, b) && AtMost(b, a) ==> a == b
    ensures AtMost(a, b) && AtMost(b, c) ==> AtMost(a, c)
    decreases |a|
  {
    if a != [] && b != [] {
      TextOrder(a[1..], b[1..], if c == [] then [] else c[1..]);
      assert a == [a[0]] + a[1..] && b == [b[0]] + b[1..];
    }
  }

  predicate Before(d: PredicateSet, e: PredicateSet) {
    if d.ns == e.ns then d.version <= e.version else AtMost(d.ns, e.ns)
  }

  lemma {:induction false} BeforeIsAnOrder(d: PredicateSet, e: PredicateSet, f: PredicateSet)
    ensures Before(d, e) || Before(e, d)
    ensures Before(d, e) && Before(e, f) ==> Before(d, f)
  {
    TextOrder(d.ns, e.ns, f.ns);
    TextOrder(d.ns, e.ns, d.ns);
    TextOrder(e.ns, f.ns, e.ns);
  }

  /** The stable sort by namespace and version: a document goes after its equals. */
  function Insert(d: PredicateSet, sorted: seq<PredicateSet>): (r: seq<PredicateSet>)
    ensures forall e :: e in r <==> e == d || e in sorted
    decreases |sorted|
  {
    if sorted == [] then [d]
    else if Before(sorted[|sorted| - 1], d) then sorted + [d]
    else Insert(d, sorted[..|sorted| - 1]) + [sorted[|sorted| - 1]]
  }

  function Sort(docs: seq<PredicateSet>): (r: seq<PredicateSet>)
    ensures forall e :: e in r <==> e in docs
    decreases |docs|
  {
    if docs == [] then [] else Insert(docs[|docs| - 1], Sort(docs[..|docs| - 1]))
  }

  /** The last document follows all the others, and so on down. */
  ghost predicate Sorted(s: seq<PredicateSet>)
    decreases |s|
  {
    s == [] || (Sorted(s[..|s| - 1]) && forall d | d in s :: Before(d, s[|s| - 1]))
  }

  lemma {:induction false} InsertSorts(d: PredicateSet, s: seq<PredicateSet>)
    requires Sorted(s)
    ensures Sorted(Insert(d, s))
    decreases |s|
  {
    var r := Insert(d, s);
    if s == [] {
      assert r[..0] == [];
      BeforeIsAnOrder(d, d, d);
    } else {
      var last := s[|s| - 1];
      BeforeIsAnOrder(d, last, last);
      if Before(last, d) {
        assert r[..|r| - 1] == s;
        BeforeIsAnOrder(d, d, d);
        forall e | e in r ensures Before(e, d) {
          if e in s { BeforeIsAnOrder(e, last, d); }
        }
      } else {
        InsertSorts(d, s[..|s| - 1]);
        assert r[..|r| - 1] == Insert(d, s[..|s| - 1]);
        assert last in s;
        BeforeIsAnOrder(last, last, last);
        forall e | e in r ensures Before(e, last) {
          assert e == d || e in s[..|s| - 1] || e == last;
        }
      }
    }
  }

  lemma {:induction false} SortSorts(docs: seq<PredicateSet>)
    ensures Sorted(Sort(docs))
    decreases |docs|
  {
    if docs != [] {
      SortSorts(docs[..|docs| - 1]);
      InsertSorts(docs[|docs| - 1], Sort(docs[..|docs| - 1]));
    }
  }

  /** Every document admitted in turn, up to the first that cannot be. */
  function Replay(docs: seq<PredicateSet>): Result<Snapshot, RegistryError>
    decreases |docs|
  {
    if docs == [] then Ok(map[])
    else
      match Replay(docs[..|docs| - 1])
      case Err(e) => Err(e)
      case Ok(sets) =>
        match Check(sets, docs[|docs| - 1])
        case Err(e) => Err(e)
        case Ok(_) => Ok(Admitted(sets, docs[|docs| - 1]))
  }

  lemma {:induction false} ReplayStops(docs: seq<PredicateSet>, n: nat)
    requires n <= |docs| && Replay(docs[..n]).Err?
    ensures Replay(docs) == Err(Replay(docs[..n]).error)
    decreases |docs| - n
  {
    if n < |docs| {
      assert docs[..n + 1][..n] == docs[..n];
      assert Replay(docs[..n + 1]) == Err(Replay(docs[..n]).error);
      ReplayStops(docs, n + 1);
    } else {
      assert docs[..n] == docs;
    }
  }

  method FromSets(docs: seq<PredicateSet>) returns (r: Result<Snapshot, RegistryError>)
    ensures r == Replay(Sort(docs))
    ensures r.Ok? ==> Chained(r.value)
  {
    var ordered := Sort(docs);
    var snapshot := new RegistrySnapshot();
    for i := 0 to |ordered|
      invariant Chained(snapshot.sets)
      invariant Replay(ordered[..i]) == Ok(snapshot.sets)
    {
      assert ordered[..i + 1][..i] == ordered[..i];
      var admission := snapshot.Admit(ordered[i]);
      if admission.Err? {
        ReplayStops(ordered, i + 1);
        return Err(admission.error);
      }
    }
    assert ordered[..|ordered|] == ordered;
    r := Ok(snapshot.sets);
  }

  /** The snapshot is exactly these documents. */
  ghost predicate Holds(sets: Snapshot, docs: seq<PredicateSet>) {
    && (forall d | d in docs :: KeyOf(d) in sets && sets[KeyOf(d)] == d)
    && (forall k | k in sets :: sets[k] in docs && KeyOf(sets[k]) == k)
  }

  /** What a set of documents must be to be a registry, with no word about order. */
  ghost predicate Coherent(docs: seq<PredicateSet>) {
    && (forall d | d in docs :: d.ns != RESERVED)
    && (forall d, e | d in docs && e in docs && KeyOf(d) == KeyOf(e) :: d == e)
    && (forall d, e | d in docs && e in docs && d.ns == e.ns && d.version < e.version :: Keeps(d, e))
  }

  lemma {:induction false} ReplayHolds(docs: seq<PredicateSet>)
    ensures Replay(docs).Ok? ==> Chained(Replay(docs).value) && Holds(Replay(docs).value, docs)
    decreases |docs|
  {
    if docs != [] && Replay(docs).Ok? {
      var before, last := docs[..|docs| - 1], docs[|docs| - 1];
      ReplayHolds(before);
      var sets := Replay(before).value;
      AdmittingKeepsTheChain(sets, last);
      var after := Replay(docs).value;
      assert docs == before + [last];
      forall d | d in docs ensures KeyOf(d) in after && after[KeyOf(d)] == d {
        if d != last { assert d in before; }
      }
      forall k | k in after ensures after[k] in docs && KeyOf(after[k]) == k {
        if k in sets && sets[k] == after[k] { assert sets[k] in before; }
      }
    }
  }

  lemma {:induction false} FewerAreCoherent(before: seq<PredicateSet>, last: PredicateSet)
    requires Coherent(before + [last])
    ensures Coherent(before)
  {
    assert forall d | d in before :: d in before + [last];
  }

  lemma {:induction false} CoherentReplays(docs: seq<PredicateSet>)
    requires Sorted(docs) && Coherent(docs)
    ensures Replay(docs).Ok?
    decreases |docs|
  {
    if docs != [] {
      var before, last := docs[..|docs| - 1], docs[|docs| - 1];
      assert docs == before + [last];
      FewerAreCoherent(before, last);
      CoherentReplays(before);
      NextIsAdmitted(before, last);
    }
  }

  lemma {:induction false} NextIsAdmitted(before: seq<PredicateSet>, last: PredicateSet)
    requires Replay(before).Ok? && Coherent(before + [last]) && Sorted(before + [last])
    ensures Check(Replay(before).value, last).Ok?
  {
    var docs := before + [last];
    var sets := Replay(before).value;
    ReplayHolds(before);
    assert last in docs && last.ns != RESERVED;
    if KeyOf(last) in sets {
      assert sets[KeyOf(last)] in docs;
    } else if Latest(sets, last.ns).Some? {
      var latest := Latest(sets, last.ns).value;
      var top :| top in sets && sets[top] == latest && Newest(sets, last.ns, top);
      assert latest in before && latest in docs && KeyOf(latest) == top;
      assert Before(latest, docs[|docs| - 1]);
      assert latest.version != last.version;
      assert Keeps(latest, last);
    }
  }

  /** Rebuilding succeeds exactly when the documents are coherent, and then holds them all. */
  lemma {:induction false} RebuildsIff(docs: seq<PredicateSet>)
    ensures Replay(Sort(docs)).Ok? <==> Coherent(docs)
    ensures Replay(Sort(docs)).Ok? ==> Holds(Replay(Sort(docs)).value, docs)
  {
    var ordered := Sort(docs);
    SortSorts(docs);
    ReplayHolds(ordered);
    if Replay(ordered).Ok? {
      var sets := Replay(ordered).value;
      forall d, e | d in docs && e in docs && d.ns == e.ns && d.version < e.version ensures Keeps(d, e) {
        assert d in ordered && e in ordered;
        assert sets[KeyOf(d)] == d && sets[KeyOf(e)] == e;
      }
      forall d | d in docs ensures d.ns != RESERVED {
        assert d in ordered && sets[KeyOf(d)] == d;
      }
      forall d, e | d in docs && e in docs && KeyOf(d) == KeyOf(e) ensures d == e {
        assert d in ordered && e in ordered;
      }
    }
    if Coherent(docs) {
      assert Coherent(ordered);
      CoherentReplays(ordered);
    }
  }

  lemma {:induction false} HeldOnce(a: Snapshot, b: Snapshot, docs: seq<PredicateSet>, others: seq<PredicateSet>)
    requires Holds(a, docs) && Holds(b, others) && forall d :: d in docs <==> d in others
    ensures a == b
  {
    forall k ensures k in a <==> k in b {
      if k in a { assert a[k] in others; }
      if k in b { assert b[k] in docs; }
    }
    forall k | k in a ensures a[k] == b[k] {
      assert a[k] in others;
    }
  }

  /** The order documents are read back in, and repeated reads of one, make no
      difference to whether the registry is accepted nor to what it holds. */
  lemma {:induction false} OrderIsIrrelevant(docs: seq<PredicateSet>, others: seq<PredicateSet>)
    requires forall d :: d in docs <==> d in others
    ensures Replay(Sort(docs)).Ok? <==> Replay(Sort(others)).Ok?
    ensures Replay(Sort(docs)).Ok? ==> Replay(Sort(docs)) == Replay(Sort(others))
  {
    RebuildsIff(docs);
    RebuildsIff(others);
    assert Coherent(docs) <==> Coherent(others);
    if Replay(Sort(docs)).Ok? {
      HeldOnce(Replay(Sort(docs)).value, Replay(Sort(others)).value, docs, others);
    }
  }

  /** A registry grown by any run of offers is read back as itself from its rows. */
  lemma {:induction false} RowsRebuildTheRegistry(offers: seq<PredicateSet>, rows: seq<PredicateSet>)
    requires Holds(Registered(offers), rows)
    ensures Replay(Sort(rows)) == Ok(Registered(offers))
  {
    var sets := Registered(offers);
    RegisteredIsChained(offers);
    forall d, e | d in rows && e in rows && d.ns == e.ns && d.version < e.version ensures Keeps(d, e) {
      assert sets[KeyOf(d)] == d && sets[KeyOf(e)] == e;
    }
    assert forall d | d in rows :: d.ns != RESERVED by {
      assert forall d | d in rows :: KeyOf(d) in sets;
    }
    RebuildsIff(rows);
    HeldOnce(Replay(Sort(rows)).value, sets, rows, rows);
  }

  // ---------------------------------------------------- claims under a vocabulary

  datatype Value =
    | Text(text: string)
    | Integer(int_: int)
    | Decimal(digits: int, scale: nat, unit: Option<string>)
    | Date(days: int)
    | DateTime(seconds: int)
    | Interval(start: int, end: int)
    | EntityRef(entity: string)
    | Enum(variant: string)

  function KindOf(v: Value): ValueKind {
    match v
    case Text(_) => TextKind
    case Integer(_) => IntegerKind
    case Decimal(_, _, _) => DecimalKind
    case Date(_) => DateKind
    case DateTime(_) => DateTimeKind
    case Interval(_, _) => IntervalKind
    case EntityRef(_) => EntityKind
    case Enum(_) => EnumKind
  }

  type Id = nat

  datatype Subject = Subject(ns: string, kind: string, key: string)

  datatype PredicateRef = PredicateRef(ns: string, name: string, version: nat)

  /** The memories a claim is derived from, and the ones its spans point into. */
  datatype Provenance = Provenance(derivedFrom: seq<Id>, spans: seq<Id>)

  datatype Scope = Scope(owner: string, kind: string)

  datatype Claim = Claim(
    id: Id, scope: Scope, subject: Subject, predicate_: PredicateRef, value: Value, slot: Option<string>,
    stance: Stance, condition: Option<string>, provenance: Provenance)

  datatype ClaimError =
    | UnknownPredicate | WrongVersion | Withdrawn | WrongSubjectKind | WrongValueType | UndeclaredUnit
    | UndeclaredVariant | MissingSlot | UnexpectedSlot | InadmissibleStatus | TextNotNormalized | SpanOutsideDerivation

  function Define(sets: Snapshot, p: PredicateRef): Option<PredicateDef> {
    if Key(p.ns, p.version) in sets then FindPredicate(sets[Key(p.ns, p.version)].predicates, p.name) else None
  }

  function CheckValue(v: Value, t: ValueType): Option<ClaimError> {
    if KindOf(v) != t.kind then Some(WrongValueType)
    else if v.Decimal? && !(if v.unit.Some? then v.unit.value in t.units else t.units == []) then Some(UndeclaredUnit)
    else if v.Enum? && v.variant !in t.variants then Some(UndeclaredVariant)
    else None
  }

  /** The first thing wrong with a claim under its vocabulary. `nfc` recognises
      normalized text. */
  function Validate(c: Claim, sets: Snapshot, nfc: string -> bool): Option<ClaimError> {
    var p := c.predicate_;
    match Define(sets, p)
    case None =>
      if exists k :: k in sets && k.ns == p.ns && FindPredicate(sets[k].predicates, p.name).Some?
      then Some(WrongVersion) else Some(UnknownPredicate)
    case Some(def) =>
      if def.deprecated then Some(Withdrawn)
      else if c.subject.ns != p.ns || c.subject.kind !in def.subjects then Some(WrongSubjectKind)
      else if CheckValue(c.value, def.value).Some? then CheckValue(c.value, def.value)
      else if def.cardinality.Many? && c.slot == None then Some(MissingSlot)
      else if def.cardinality.One? && c.slot.Some? then Some(UnexpectedSlot)
      else if c.stance !in def.epistemic then Some(InadmissibleStatus)
      else if (c.value.Text? && !nfc(c.value.text)) || (c.condition.Some? && !nfc(c.condition.value)) then Some(TextNotNormalized)
      else if exists s :: s in c.provenance.spans && s !in c.provenance.derivedFrom then Some(SpanOutsideDerivation)
      else None
  }

  predicate Unitless(v: Value) { v.Decimal? && v.unit == None }

  function AtVersion(c: Claim, w: nat): Claim {
    c.(predicate_ := c.predicate_.(version := w))
  }

  /** What the rule leaves out. A claim that is valid at one version is valid at a later
      one exactly when that one has not withdrawn the predicate, narrowed its subjects
      or stances, nor given units to a decimal the claim states without one. */
  lemma {:induction false} ClaimSurvivesIff(offers: seq<PredicateSet>, c: Claim, w: nat, nfc: string -> bool)
    requires Validate(c, Registered(offers), nfc) == None
    requires c.predicate_.version < w && Key(c.predicate_.ns, w) in Registered(offers)
    ensures Define(Registered(offers), AtVersion(c, w).predicate_).Some?
    ensures
      var def := Define(Registered(offers), AtVersion(c, w).predicate_).value;
      Validate(AtVersion(c, w), Registered(offers), nfc) == None <==>
      (!def.deprecated && c.subject.kind in def.subjects && c.stance in def.epistemic &&
       !(Unitless(c.value) && def.value.units != []))
  {
    var sets := Registered(offers);
    RegisteredIsChained(offers);
    var p := c.predicate_;
    var earlier, later := sets[Key(p.ns, p.version)], sets[Key(p.ns, w)];
    assert Keeps(earlier, later);
    var was := FindPredicate(earlier.predicates, p.name).value;
    assert was in earlier.predicates && KeptIn(was, later);
    var now := FindPredicate(later.predicates, p.name).value;
    assert Define(sets, AtVersion(c, w).predicate_) == Some(now);
    assert CheckValue(c.value, was.value) == None;
    assert CheckValue(c.value, now.value) == None <==> !(Unitless(c.value) && now.value.units != []);
  }

  function Fare(version: nat, units: seq<string>): PredicateSet {
    PredicateSet("travel", version, ["segment"],
                 [PredicateDef("fare", ["segment"], ValueType(DecimalKind, units, []), One, [Asserted], false)])
  }

  /** Adding the first unit is an accepted change. A number without a unit stays valid at
      the version it names, and is refused when it is re-addressed to the new one. */
  lemma {:induction false} FirstUnitStrandsNumbers(c: Claim, nfc: string -> bool)
    requires c.predicate_ == PredicateRef("travel", "fare", 1) && c.subject.ns == "travel" && c.subject.kind == "segment"
    requires Unitless(c.value) && c.slot == None && c.stance == Asserted && c.condition == None && c.provenance.spans == []
    ensures
      var sets := Registered([Fare(1, []), Fare(2, ["EUR"])]);
      Validate(c, sets, nfc) == None && Validate(AtVersion(c, 2), sets, nfc) == Some(UndeclaredUnit)
  {
    var one, two := Fare(1, []), Fare(2, ["EUR"]);
    TwoVersions(one, two);
    var sets := Registered([one, two]);
    assert Define(sets, c.predicate_) == Some(one.predicates[0]);
    assert Define(sets, AtVersion(c, 2).predicate_) == Some(two.predicates[0]);
  }

  lemma {:induction false} TwoVersions(one: PredicateSet, two: PredicateSet)
    requires one.ns == two.ns != RESERVED && one.version < two.version && Keeps(one, two)
    ensures Registered([one, two]) == map[KeyOf(one) := one, KeyOf(two) := two]
  {
    assert [one, two][..1] == [one] && [one][..0] == [];
    assert Registered([]) == map[];
    assert Latest(map[], one.ns) == None;
    var sets := Registered([one]);
    assert sets == map[KeyOf(one) := one];
    assert KeyOf(one) in sets && KeyOf(two) !in sets;
    var latest := Latest(sets, two.ns);
    assert latest == Some(one);
    assert Check(sets, two) == Ok(New);
  }

  /** Which refusal is reported can depend on the order of two documents that claim the
      same version; that there is one cannot. */
  lemma {:induction false} ReportedErrorDependsOnOrder(base: PredicateSet, good: PredicateSet, bad: PredicateSet)
    requires base.ns == good.ns == bad.ns != RESERVED && base.version < good.version == bad.version
    requires Keeps(base, good) && !Keeps(base, bad)
    ensures Replay(Sort([base, good, bad])) == Err(ConflictingVersion(good.version))
    ensures Replay(Sort([base, bad, good])).Err? && Replay(Sort([base, bad, good])).error.Incompatible?
  {
    SortThree(base, good, bad);
    SortThree(base, bad, good);
    ReplayTwo(base, good);
    ReplayTwo(base, bad);
    assert [base, good, bad][..2] == [base, good] && [base, bad, good][..2] == [base, bad];
  }

  lemma {:induction false} SortThree(a: PredicateSet, b: PredicateSet, c: PredicateSet)
    requires a.ns == b.ns == c.ns && a.version <= b.version <= c.version
    ensures Sort([a, b, c]) == [a, b, c]
  {
    assert [a, b, c][..2] == [a, b] && [a, b][..1] == [a] && [a][..0] == [];
    assert Sort([a]) == [a];
    assert Sort([a, b]) == [a, b];
  }

  lemma {:induction false} ReplayTwo(one: PredicateSet, two: PredicateSet)
    requires one.ns == two.ns != RESERVED && one.version < two.version
    ensures Keeps(one, two) ==> Replay([one, two]) == Ok(map[KeyOf(one) := one, KeyOf(two) := two])
    ensures !Keeps(one, two) ==> Replay([one, two]) == Err(Successor(one, two).value)
  {
    assert [one, two][..1] == [one] && [one][..0] == [];
    assert Replay([]) == Ok(map[]);
    assert Latest(map[], one.ns) == None;
    var sets: Snapshot := map[KeyOf(one) := one];
    assert Replay([one]) == Ok(sets);
    assert KeyOf(one) in sets && KeyOf(two) !in sets;
    assert Latest(sets, two.ns) == Some(one);
  }
}
