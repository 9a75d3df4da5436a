/** Building the initial reference list from the loaded Nuxt options
    (packages/nuxi/src/commands/prepare.ts, lines 22-36). */
module Assembly {
  import opened Refs

  /** An entry of a configured module list. `typeof` calls only `Id` a string;
      `Other` stands for a function, an `[name, options]` pair or a module object. */
  datatype ModuleEntry = Id(id: string) | Other

  /** The parts of `nuxt.options` this command reads. `resolvedModules` is `_modules`. */
  datatype NuxtOptions = NuxtOptions(
    majorVersion: int,
    buildModules: seq<ModuleEntry>,
    modules: seq<ModuleEntry>,
    resolvedModules: seq<ModuleEntry>)

  /** The name of the package nearest to an identifier along the module search
      paths: `Undefined` when no package is found or the package has no name.
      Package resolution is not modelled. */
  type NameLookup = (string, seq<string>) -> AttrValue

  /** The framework's own ambient type namespace, always the first source. */
  const FrameworkTypes := "nuxt3"
  const Kit := "@nuxt/kit"
  const Nitro := "@nuxt/nitro"

  /** The always-included internal modules for a major version. */
  function AdHocModules(majorVersion: int): (r: seq<string>)
    ensures |r| == (if majorVersion == 3 then 2 else 1)
    ensures r[0] == Kit
    ensures Nitro in r <==> majorVersion == 3
  {
    if majorVersion == 3 then [Kit, Nitro] else [Kit]
  }

  /** String identifiers seen as configuration entries. */
  function Ids(xs: seq<string>): (r: seq<ModuleEntry>)
    ensures |r| == |xs|
    ensures forall i :: 0 <= i < |xs| ==> r[i] == Id(xs[i])
  {
    seq(|xs|, i requires 0 <= i < |xs| => Id(xs[i]))
  }

  /** The unfiltered source list: the namespace, the ad-hoc modules, then
      `buildModules`, `modules` and `_modules`. */
  function Sources(opts: NuxtOptions): (r: seq<ModuleEntry>)
    ensures |r| == 1 + |AdHocModules(opts.majorVersion)| + |opts.buildModules| + |opts.modules| + |opts.resolvedModules|
    ensures r[0] == Id(FrameworkTypes)
  {
    [Id(FrameworkTypes)] + Ids(AdHocModules(opts.majorVersion))
      + opts.buildModules + opts.modules + opts.resolvedModules
  }

  /** The entries that are strings, in order, as identifiers; every other entry is dropped. */
  function StringIds(entries: seq<ModuleEntry>): (r: seq<string>)
    ensures |r| <= |entries|
    ensures forall i :: 0 <= i < |r| ==> Id(r[i]) in entries
    ensures forall i :: 0 <= i < |entries| && entries[i].Id? ==> entries[i].id in r
    ensures |r| == |entries| <==> forall i :: 0 <= i < |entries| ==> entries[i].Id?
  {
    if |entries| == 0 then []
    else (if entries[0].Id? then [entries[0].id] else []) + StringIds(entries[1..])
  }

  /** Filtering distributes over concatenation, so the kept strings keep their order. */
  lemma {:induction false} StringIdsAppend(a: seq<ModuleEntry>, b: seq<ModuleEntry>)
    ensures StringIds(a + b) == StringIds(a) + StringIds(b)
    decreases |a|
  {
    if |a| > 0 {
      assert (a + b)[1..] == a[1..] + b;
      StringIdsAppend(a[1..], b);
    } else {
      assert a + b == b;
    }
  }

  /** Filtering a list of plain strings keeps every one of them. */
  lemma {:induction false} StringIdsOfIds(xs: seq<string>)
    ensures StringIds(Ids(xs)) == xs
    decreases |xs|
  {
    if |xs| > 0 {
      StringIdsOfIds(xs[1..]);
      assert Ids(xs)[1..] == Ids(xs[1..]);
    }
  }

  /** The identifiers that survive the filter, by source list. */
  lemma SourceIds(opts: NuxtOptions)
    ensures StringIds(Sources(opts))
      == [FrameworkTypes] + AdHocModules(opts.majorVersion)
         + StringIds(opts.buildModules) + StringIds(opts.modules) + StringIds(opts.resolvedModules)
  {
    var adHoc := Ids(AdHocModules(opts.majorVersion));
    StringIdsOfIds(AdHocModules(opts.majorVersion));
    StringIdsAppend([Id(FrameworkTypes)], adHoc);
    StringIdsAppend([Id(FrameworkTypes)] + adHoc, opts.buildModules);
    StringIdsAppend([Id(FrameworkTypes)] + adHoc + opts.buildModules, opts.modules);
    StringIdsAppend([Id(FrameworkTypes)] + adHoc + opts.buildModules + opts.modules, opts.resolvedModules);
  }

  /** The name a reference is given: the nearest package's name when that is a
      non-empty string, the identifier itself otherwise. */
  function ResolveName(id: string, modulePaths: seq<string>, nearestName: NameLookup): (r: string)
    ensures Truthy(nearestName(id, modulePaths)) ==> Str(r) == nearestName(id, modulePaths)
    ensures !Truthy(nearestName(id, modulePaths)) ==> r == id
    ensures r == "" ==> id == ""
  {
    var name := nearestName(id, modulePaths);
    if Truthy(name) then name.s else id
  }

  /** The reference list handed to the `prepare:types` hook. */
  function Assemble(opts: NuxtOptions, modulePaths: seq<string>, nearestName: NameLookup): (refs: seq<Reference>)
    ensures |refs| == |StringIds(Sources(opts))|
    ensures forall i :: 0 <= i < |refs| ==>
      refs[i] == TypesRef(ResolveName(StringIds(Sources(opts))[i], modulePaths, nearestName))
    ensures forall i :: 0 <= i < |refs| ==> WellFormed(refs[i]) && !HasKey(refs[i], PathKey)
  {
    var ids := StringIds(Sources(opts));
    seq(|ids|, i requires 0 <= i < |ids| => TypesRef(ResolveName(ids[i], modulePaths, nearestName)))
  }

  /** The first reference is the framework namespace, followed by one per ad-hoc
      module, and in total one per string entry of the configured lists. */
  lemma AssembleShape(opts: NuxtOptions, modulePaths: seq<string>, nearestName: NameLookup)
    ensures var refs := Assemble(opts, modulePaths, nearestName);
      && |refs| == 1 + |AdHocModules(opts.majorVersion)|
           + |StringIds(opts.buildModules)| + |StringIds(opts.modules)| + |StringIds(opts.resolvedModules)|
      && refs[0] == TypesRef(ResolveName(FrameworkTypes, modulePaths, nearestName))
      && refs[1] == TypesRef(ResolveName(Kit, modulePaths, nearestName))
  {
    SourceIds(opts);
  }

  /** Build modules `a`, `b`, module `c` and a non-string module instance under
      major version 3 give the identifiers in source order, the instance dropped. */
  lemma ExampleIds(a: string, b: string, c: string)
    ensures StringIds(Sources(NuxtOptions(3, [Id(a), Id(b)], [Id(c)], [Other])))
      == ["nuxt3", "@nuxt/kit", "@nuxt/nitro", a, b, c]
  {
    ExampleSourceIds(a, b, c);
    var front: seq<string> := [FrameworkTypes] + [Kit, Nitro];
    assert front + [a, b] + [c] + [] == [FrameworkTypes, Kit, Nitro, a, b, c];
  }

  /** The example above with the fixed identifiers left by name. */
  lemma ExampleSourceIds(a: string, b: string, c: string)
    ensures StringIds(Sources(NuxtOptions(3, [Id(a), Id(b)], [Id(c)], [Other])))
      == [FrameworkTypes] + [Kit, Nitro] + [a, b] + [c] + []
  {
    var opts := NuxtOptions(3, [Id(a), Id(b)], [Id(c)], [Other]);
    SourceIds(opts);
    ExampleConfiguredIds(a, b, c);
    calc {
      StringIds(Sources(opts));
      [FrameworkTypes] + AdHocModules(opts.majorVersion)
        + StringIds(opts.buildModules) + StringIds(opts.modules) + StringIds(opts.resolvedModules);
      [FrameworkTypes] + [Kit, Nitro] + [a, b] + [c] + [];
    }
  }

  /** The configured lists of the example above, filtered one by one. */
  lemma ExampleConfiguredIds(a: string, b: string, c: string)
    ensures StringIds([Id(a), Id(b)]) == [a, b]
    ensures StringIds([Id(c)]) == [c]
    ensures StringIds([Other]) == []
  {
    StringIdsAppend([Id(a)], [Id(b)]);
    assert [Id(a)] + [Id(b)] == [Id(a), Id(b)];
  }
}
