/** Schema compatibility: which pairs of schemas `can_upgrade` accepts, and why a chain of
    upgradable pairs is upgradable. */
module SchemaUpgrade {
  import opened Bytes
  import opened Schema

  datatype FeatureSchema = FeatureSchema(version: int, fields: Fields)

  /** The permitted dtype changes, identities included. */
  const DTYPE_WIDENING: set<(DType, DType)> := {
    (Float32, Float32), (Float64, Float64), (Int32, Int32), (Int64, Int64), (UInt8, UInt8),
    (Float32, Float64), (Int32, Int64), (UInt8, Int32), (UInt8, Int64)}

  /** Where a schema declares `name`, or -1. */
  function Position(s: Fields, name: Buffer): (i: int)
    ensures i == -1 || (0 <= i < |s| && s[i].name == name)
    ensures i == -1 ==> forall j :: 0 <= j < |s| ==> s[j].name != name
  {
    if s == [] then -1
    else if s[|s| - 1].name == name then |s| - 1
    else Position(s[..|s| - 1], name)
  }

  predicate Has(s: Fields, name: Buffer)
  {
    Position(s, name) >= 0
  }

  function FieldNamed(s: Fields, name: Buffer): (f: Field)
    requires Has(s, name)
    ensures f.name == name && f in s
  {
    s[Position(s, name)]
  }

  // ---------------------------------------------------------------------------
  // Compatibility
  // ---------------------------------------------------------------------------

  datatype Fault =
    | StaleVersion
    | FieldsRemoved(names: set<Buffer>)
    | ShapeChanged(name: Buffer)
    | NotWidening(name: Buffer)
    | TwoDimensionalKept(name: Buffer)
    | TwoDimensionalAdded(name: Buffer)

  predicate KeptOk(o: Field, n: Field)
  {
    o.shape == n.shape && (o.dtype, n.dtype) in DTYPE_WIDENING && |o.shape| < 2
  }

  ghost predicate Upgradable(o: FeatureSchema, n: FeatureSchema)
  {
    && n.version > o.version
    && (forall name {:trigger Has(o.fields, name)} :: Has(o.fields, name) ==>
          Has(n.fields, name) && KeptOk(FieldNamed(o.fields, name), FieldNamed(n.fields, name)))
    && (forall name {:trigger Has(n.fields, name)} :: Has(n.fields, name) && !Has(o.fields, name) ==>
          |FieldNamed(n.fields, name).shape| < 2)
  }

  function RemovedNames(o: Fields, n: Fields): (r: set<Buffer>)
    ensures forall name :: name in r <==> Has(o, name) && !Has(n, name)
  {
    set i | 0 <= i < |o| && !Has(n, o[i].name) :: o[i].name
  }

  /** What each reported reason means. */
  ghost predicate IsFault(o: FeatureSchema, n: FeatureSchema, f: Fault)
  {
    match f
    case StaleVersion => n.version <= o.version
    case FieldsRemoved(names) => names == RemovedNames(o.fields, n.fields) && names != {}
    case ShapeChanged(x) => Has(o.fields, x) && Has(n.fields, x)
      && FieldNamed(o.fields, x).shape != FieldNamed(n.fields, x).shape
    case NotWidening(x) =>
      Has(o.fields, x) && Has(n.fields, x)
        && (FieldNamed(o.fields, x).dtype, FieldNamed(n.fields, x).dtype) !in DTYPE_WIDENING
    case TwoDimensionalKept(x) =>
      Has(o.fields, x) && Has(n.fields, x)
        && (|FieldNamed(o.fields, x).shape| >= 2 || |FieldNamed(n.fields, x).shape| >= 2)
    case TwoDimensionalAdded(x) => Has(n.fields, x) && !Has(o.fields, x) && |FieldNamed(n.fields, x).shape| >= 2
  }

  /** No fault can be found exactly in upgradable pairs. */
  lemma FaultlessIffUpgradable(o: FeatureSchema, n: FeatureSchema)
    ensures Upgradable(o, n) <==> forall f :: !IsFault(o, n, f)
  {
    hide FieldNamed, Has, RemovedNames;
    if Upgradable(o, n) {
      forall f
        ensures !IsFault(o, n, f)
      {
      }
    } else if forall f :: !IsFault(o, n, f) {
      assert !IsFault(o, n, StaleVersion);
      assert !IsFault(o, n, FieldsRemoved(RemovedNames(o.fields, n.fields)));
      forall name | Has(o.fields, name)
        ensures Has(n.fields, name) && KeptOk(FieldNamed(o.fields, name), FieldNamed(n.fields, name))
      {
        assert name !in RemovedNames(o.fields, n.fields);
        assert !IsFault(o, n, ShapeChanged(name)) && !IsFault(o, n, NotWidening(name))
          && !IsFault(o, n, TwoDimensionalKept(name));
      }
      forall name | Has(n.fields, name) && !Has(o.fields, name)
        ensures |FieldNamed(n.fields, name).shape| < 2
      {
        assert !IsFault(o, n, TwoDimensionalAdded(name));
      }
    }
  }

  ghost predicate IsDict(s: Fields, m: map<Buffer, Field>)
  {
    forall name {:trigger name in m} {:trigger Has(s, name)} ::
      (name in m <==> Has(s, name)) && (name in m ==> m[name] == FieldNamed(s, name))
  }

  method ByName(s: Fields) returns (m: map<Buffer, Field>)
    ensures IsDict(s, m)
  {
    m := map[];
    for i := 0 to |s|
      invariant IsDict(s[..i], m)
    {
      assert s[..i + 1][..i] == s[..i];
      m := m[s[i].name := s[i]];
    }
    assert s[..|s|] == s;
  }

  /** Which faults have been looked for, once the names in the three sets are gone through. */
  predicate LookedFor(f: Fault, kept: set<Buffer>, flat: set<Buffer>, added: set<Buffer>)
  {
    match f
    case StaleVersion => true
    case FieldsRemoved(_) => true
    case ShapeChanged(x) => x in kept
    case NotWidening(x) => x in kept
    case TwoDimensionalKept(x) => x in flat
    case TwoDimensionalAdded(x) => x in added
  }

  ghost predicate Reports(o: FeatureSchema, n: FeatureSchema, reasons: seq<Fault>, kept: set<Buffer>, flat: set<Buffer>,
                          added: set<Buffer>)
  {
    forall f :: f in reasons <==> IsFault(o, n, f) && LookedFor(f, kept, flat, added)
  }

  function Also(reasons: seq<Fault>, c: bool, f: Fault): seq<Fault>
  {
    if c then reasons + [f] else reasons
  }

  lemma ReportHeader(o: FeatureSchema, n: FeatureSchema)
    ensures Reports(o, n, Also(Also([], n.version <= o.version, StaleVersion), RemovedNames(o.fields, n.fields) != {},
                               FieldsRemoved(RemovedNames(o.fields, n.fields))), {}, {}, {})
  {
    hide Has, FieldNamed, RemovedNames;
  }

  lemma ReportKept(o: FeatureSchema, n: FeatureSchema, reasons: seq<Fault>, kept: set<Buffer>, x: Buffer)
    requires Reports(o, n, reasons, kept, {}, {}) && Has(o.fields, x)
    ensures Has(n.fields, x) ==>
              Reports(o, n,
                      Also(Also(reasons,
                                FieldNamed(o.fields, x).shape != FieldNamed(n.fields, x).shape, ShapeChanged(x)),
                           (FieldNamed(o.fields, x).dtype, FieldNamed(n.fields, x).dtype) !in DTYPE_WIDENING,
                           NotWidening(x)),
                      kept + {x}, {}, {})
    ensures !Has(n.fields, x) ==> Reports(o, n, reasons, kept + {x}, {}, {})
  {
    hide Has, FieldNamed, RemovedNames;
  }

  lemma ReportFlat(o: FeatureSchema, n: FeatureSchema, reasons: seq<Fault>, kept: set<Buffer>, flat: set<Buffer>,
                   x: Buffer)
    requires Reports(o, n, reasons, kept, flat, {}) && Has(o.fields, x)
    ensures Reports(o, n,
                    Also(reasons,
                         Has(n.fields, x)
                         && (|FieldNamed(o.fields, x).shape| >= 2 || |FieldNamed(n.fields, x).shape| >= 2),
                         TwoDimensionalKept(x)),
                    kept, flat + {x}, {})
  {
    hide Has, FieldNamed, RemovedNames;
  }

  lemma ReportAdded(o: FeatureSchema, n: FeatureSchema, reasons: seq<Fault>, kept: set<Buffer>, flat: set<Buffer>,
                    added: set<Buffer>, x: Buffer)
    requires Reports(o, n, reasons, kept, flat, added) && Has(n.fields, x)
    ensures Reports(o, n,
                    Also(reasons, !Has(o.fields, x) && |FieldNamed(n.fields, x).shape| >= 2, TwoDimensionalAdded(x)),
                    kept, flat, added + {x})
  {
    hide Has, FieldNamed, RemovedNames;
  }

  lemma ReportsAll(o: FeatureSchema, n: FeatureSchema, reasons: seq<Fault>, olds: set<Buffer>, news: set<Buffer>)
    requires Reports(o, n, reasons, olds, olds, news)
    requires forall x :: (x in olds <==> Has(o.fields, x)) && (x in news <==> Has(n.fields, x))
    ensures forall f :: f in reasons <==> IsFault(o, n, f)
    ensures reasons == [] <==> Upgradable(o, n)
  {
    hide Has, FieldNamed, RemovedNames, Upgradable;
    forall f
      ensures f in reasons <==> IsFault(o, n, f)
    {
    }
    FaultlessIffUpgradable(o, n);
    assert reasons != [] ==> reasons[0] in reasons;
  }

  /** `can_upgrade`: the reasons are exactly the faults, and there are none exactly when
      the pair is upgradable. */
  method CanUpgrade(o: FeatureSchema, n: FeatureSchema) returns (ok: bool, reasons: seq<Fault>)
    ensures ok <==> Upgradable(o, n)
    ensures ok <==> reasons == []
    ensures forall f :: f in reasons <==> IsFault(o, n, f)
  {
    hide Has, FieldNamed, Upgradable, Reports, IsFault, RemovedNames;
    reasons := [];
    if n.version <= o.version {
      reasons := reasons + [StaleVersion];
    }
    var oldByName := ByName(o.fields);
    var newByName := ByName(n.fields);
    var removed := oldByName.Keys - newByName.Keys;
    assert removed == RemovedNames(o.fields, n.fields);
    if removed != {} {
      reasons := reasons + [FieldsRemoved(removed)];
    }
    ReportHeader(o, n);
    ghost var olds, news := oldByName.Keys, newByName.Keys;
    var todo := oldByName.Keys;
    ghost var seen: set<Buffer> := {};
    while todo != {}
      invariant todo <= olds && seen == olds - todo && Reports(o, n, reasons, seen, {}, {})
      decreases todo
    {
      var name :| name in todo;
      ghost var before := reasons;
      if name in newByName {
        if oldByName[name].shape != newByName[name].shape {
          reasons := reasons + [ShapeChanged(name)];
        }
        if (oldByName[name].dtype, newByName[name].dtype) !in DTYPE_WIDENING {
          reasons := reasons + [NotWidening(name)];
        }
      }
      ReportKept(o, n, before, seen, name);
      todo, seen := todo - {name}, seen + {name};
    }
    assert seen == olds;
    todo, seen := oldByName.Keys, {};
    while todo != {}
      invariant todo <= olds && seen == olds - todo && Reports(o, n, reasons, olds, seen, {})
      decreases todo
    {
      var name :| name in todo;
      ghost var before := reasons;
      if name in newByName && (|oldByName[name].shape| >= 2 || |newByName[name].shape| >= 2) {
        reasons := reasons + [TwoDimensionalKept(name)];
      }
      ReportFlat(o, n, before, olds, seen, name);
      todo, seen := todo - {name}, seen + {name};
    }
    assert seen == olds;
    todo, seen := newByName.Keys, {};
    while todo != {}
      invariant todo <= news && seen == news - todo && Reports(o, n, reasons, olds, olds, seen)
      decreases todo
    {
      var name :| name in todo;
      ghost var before := reasons;
      if name !in oldByName && |newByName[name].shape| >= 2 {
        reasons := reasons + [TwoDimensionalAdded(name)];
      }
      ReportAdded(o, n, before, olds, olds, seen, name);
      todo, seen := todo - {name}, seen + {name};
    }
    assert seen == news;
    ReportsAll(o, n, reasons, olds, news);
    ok := reasons == [];
  }

  /** Upgradability composes. */
  lemma UpgradableTransitive(a: FeatureSchema, b: FeatureSchema, c: FeatureSchema)
    requires Upgradable(a, b) && Upgradable(b, c)
    ensures Upgradable(a, c)
  {
    hide FieldNamed, Has;
    forall name | Has(a.fields, name)
      ensures Has(c.fields, name) && KeptOk(FieldNamed(a.fields, name), FieldNamed(c.fields, name))
    {
      assert Has(b.fields, name);
    }
    forall name | Has(c.fields, name) && !Has(a.fields, name)
      ensures |FieldNamed(c.fields, name).shape| < 2
    {
      assert Has(b.fields, name) ==> KeptOk(FieldNamed(b.fields, name), FieldNamed(c.fields, name));
    }
  }
}
