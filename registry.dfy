/**
 * The type registry of pkg/analyzer/defer_only.go: which named types of the
 * Spanner client package count as resources, and the lookup of a value's type.
 */
module Registry {
  import opened Wrappers
  import opened Frontend

  const SpannerPath: string := "cloud.google.com/go/spanner"
  const ReadOnlyTransaction: string := "ReadOnlyTransaction"
  const BatchReadOnlyTransaction: string := "BatchReadOnlyTransaction"
  const RowIterator: string := "RowIterator"

  /** The names registered, in registration order. */
  const ResourceNames: seq<string> := [ReadOnlyTransaction, BatchReadOnlyTransaction, RowIterator]

  /** `name` is declared in the package's scope with a named type. */
  predicate Resolves(pkg: Package, name: string) {
    name in pkg.scope && pkg.scope[name].Named?
  }

  /** The map after registering `name` from `pkg`: unchanged unless the name resolves to a named type. */
  function Registered(m: map<TypeId, string>, pkg: Package, name: string): map<TypeId, string> {
    if Resolves(pkg, name) then m[pkg.scope[name].id := name] else m
  }

  /** The registry built from the Spanner package: the three names registered in order. */
  function RegisterAll(pkg: Package): (m: map<TypeId, string>)
    ensures forall id :: id in m ==> m[id] in ResourceNames && Resolves(pkg, m[id]) && pkg.scope[m[id]].id == id
    ensures forall i :: 0 <= i < |ResourceNames| && Resolves(pkg, ResourceNames[i]) ==> pkg.scope[ResourceNames[i]].id in m
    ensures m == map[] <==> forall i :: 0 <= i < |ResourceNames| ==> !Resolves(pkg, ResourceNames[i])
  {
    Registered(Registered(Registered(map[], pkg, ReadOnlyTransaction), pkg, BatchReadOnlyTransaction), pkg, RowIterator)
  }

  /** The first package whose import path is the Spanner client's, if any. */
  function FirstSpannerPackage(prog: seq<Package>): (r: Option<Package>)
    ensures r.None? <==> forall i :: 0 <= i < |prog| ==> prog[i].path != SpannerPath
    ensures r.Some? ==> exists i :: 0 <= i < |prog| && prog[i] == r.value && prog[i].path == SpannerPath
  {
    if prog == [] then None
    else if prog[0].path == SpannerPath then Some(prog[0])
    else
      var r := FirstSpannerPackage(prog[1..]);
      assert forall i :: 1 <= i < |prog| ==> prog[i] == prog[1..][i - 1];
      r
  }

  /** The package found is the first with the Spanner path: every package before it has another path. */
  lemma {:induction false} FirstSpannerPackageIsFirst(prog: seq<Package>, i: nat)
    requires i < |prog| && prog[i].path == SpannerPath
    requires forall j :: 0 <= j < i ==> prog[j].path != SpannerPath
    ensures FirstSpannerPackage(prog) == Some(prog[i])
    decreases i
  {
    if i > 0 {
      assert prog[1..][i - 1] == prog[i];
      FirstSpannerPackageIsFirst(prog[1..], i - 1);
    }
  }

  /** The registry the analysis builds over all loaded packages. */
  function SpannerRegistry(prog: seq<Package>): map<TypeId, string> {
    match FirstSpannerPackage(prog)
    case None => map[]
    case Some(pkg) => RegisterAll(pkg)
  }

  /** Only the three resource names are ever registered. */
  lemma RegistryNames(prog: seq<Package>)
    ensures forall id :: id in SpannerRegistry(prog) ==> SpannerRegistry(prog)[id] in ResourceNames
  {
  }

  /**
   * The registry is empty exactly when no package is the Spanner package or
   * none of the three names resolves to a named type in it.
   */
  lemma RegistryEmptyIff(prog: seq<Package>)
    ensures SpannerRegistry(prog) == map[] <==>
      (FirstSpannerPackage(prog).None? ||
       forall i :: 0 <= i < |ResourceNames| ==> !Resolves(FirstSpannerPackage(prog).value, ResourceNames[i]))
  {
  }

  /** Go's spannerTypes map: a reference that registerType updates in place. */
  class TypeMap {
    var entries: map<TypeId, string>

    constructor ()
      ensures entries == map[]
    {
      entries := map[];
    }
  }

  /** registerType: looks `name` up in the package scope and records its named type. */
  method RegisterType(pkg: Package, name: string, spannerTypes: TypeMap)
    modifies spannerTypes
    ensures spannerTypes.entries == Registered(old(spannerTypes.entries), pkg, name)
  {
    if name in pkg.scope {
      var t := pkg.scope[name];
      if t.Named? {
        spannerTypes.entries := spannerTypes.entries[t.id := name];
      }
    }
  }

  /** One level of pointer removed, if there is one. */
  function StripPointer(t: Type): Type {
    if t.Pointer? then t.elem else t
  }

  /**
   * getSpannerType: the registered name of `t` or of the type `t` points to,
   * and "" for anything else.
   */
  function GetSpannerType(t: Type, m: map<TypeId, string>): (name: string)
    ensures forall id :: id in m && (t == Named(id) || t == Pointer(Named(id))) ==> name == m[id]
    ensures name != "" ==> exists id :: id in m && name == m[id] && (t == Named(id) || t == Pointer(Named(id)))
  {
    var u := StripPointer(t);
    if u.Named? && u.id in m then m[u.id] else ""
  }

  /** A pointer to a pointer is never a resource: only one level is stripped. */
  lemma OnlyOnePointerStripped(t: Type, m: map<TypeId, string>)
    ensures GetSpannerType(Pointer(Pointer(t)), m) == ""
  {
  }

  /**
   * Lookup is by identity: a named type that was not registered is never taken
   * for one that was, and registered types get their own names.
   */
  lemma NamedTypesNotConflated(a: TypeId, b: TypeId, m: map<TypeId, string>)
    requires a != b && a !in m && b in m
    ensures GetSpannerType(Named(a), m) == "" && GetSpannerType(Pointer(Named(a)), m) == ""
    ensures GetSpannerType(Named(b), m) == m[b] && GetSpannerType(Pointer(Named(b)), m) == m[b]
  {
  }
}
