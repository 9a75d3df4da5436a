/** The `invoke` of the `prepare` command as one pure function: assemble the
    references, let the `prepare:types` hook extend them, render `nuxt.d.ts`
    (packages/nuxi/src/commands/prepare.ts, lines 22-58). */
module Prepare {
  import opened Text
  import opened Refs
  import opened Assembly
  import opened Declaration

  /** The effect of the `prepare:types` listeners: from the references and the
      (initially empty) declarations to the lists as the listeners leave them. */
  type TypesHook = (seq<Reference>, seq<string>) -> (seq<Reference>, seq<string>)

  /** A hook with no listeners, or whose listeners change nothing. */
  function NoListeners(refs: seq<Reference>, decls: seq<string>): (seq<Reference>, seq<string>)
  {
    (refs, decls)
  }

  /** The text `invoke` writes to `<rootDir>/nuxt.d.ts`. */
  function Generate(opts: NuxtOptions, modulePaths: seq<string>, nearestName: NameLookup,
                    hook: TypesHook, rootDir: string, relative: Relativize): (text: string)
    ensures Preamble <= text
    ensures EndsWith(text, Trailer)
  {
    var contributed := hook(Assemble(opts, modulePaths, nearestName), []);
    Render(rootDir, contributed.0, contributed.1, relative)
  }

  /** The line a `{ types: name }` reference renders to. */
  function TypesLine(name: string): string
  {
    RefOpen + (TypesKey + "=\"" + name + "\"") + RefClose
  }

  /** As long as the listeners only append references, the first reference line
      of the file is the framework namespace's, under its resolved name, and the
      file starts with the preamble followed by that line. */
  lemma NamespaceReferenceFirst(opts: NuxtOptions, modulePaths: seq<string>, nearestName: NameLookup,
                                hook: TypesHook, rootDir: string, relative: Relativize)
    requires Assemble(opts, modulePaths, nearestName) <= hook(Assemble(opts, modulePaths, nearestName), []).0
    ensures var contributed := hook(Assemble(opts, modulePaths, nearestName), []);
      var line := TypesLine(ResolveName(FrameworkTypes, modulePaths, nearestName));
      && Elements(rootDir, contributed.0, contributed.1, relative)[3] == line
      && Preamble + line + "\n" <= Generate(opts, modulePaths, nearestName, hook, rootDir, relative)
  {
    var assembled := Assemble(opts, modulePaths, nearestName);
    var contributed := hook(assembled, []);
    var name := ResolveName(FrameworkTypes, modulePaths, nearestName);
    AssembleShape(opts, modulePaths, nearestName);
    assert contributed.0[0] == TypesRef(name);
    TypesReferenceLine(rootDir, name, relative);
    RenderFirstLine(rootDir, contributed.0, contributed.1, relative);
  }

  /** A `{ types: name }` reference with a non-empty name renders as `TypesLine(name)`. */
  lemma TypesReferenceLine(rootDir: string, name: string, relative: Relativize)
    requires name != ""
    ensures ReferenceLine(rootDir, TypesRef(name), relative) == TypesLine(name)
  {
    assert |TypesKey| != |PathKey|;
    SingleEntryLine(rootDir, TypesKey, Str(name), relative);
    assert Truthy(Str(name));
    assert RenderAttr(TypesKey, Str(name)) == TypesKey + "=\"" + name + "\"";
  }

  /** With no listeners the file holds one reference line per string entry of
      the configuration and no declarations. */
  lemma WithoutListeners(opts: NuxtOptions, modulePaths: seq<string>, nearestName: NameLookup,
                         rootDir: string, relative: Relativize)
    ensures var refs := Assemble(opts, modulePaths, nearestName);
      && Generate(opts, modulePaths, nearestName, NoListeners, rootDir, relative) == Render(rootDir, refs, [], relative)
      && |Elements(rootDir, refs, [], relative)| == 6 + |AdHocModules(opts.majorVersion)|
           + |StringIds(opts.buildModules)| + |StringIds(opts.modules)| + |StringIds(opts.resolvedModules)|
  {
    AssembleShape(opts, modulePaths, nearestName);
  }

  /** A declaration contributed by a listener appears verbatim after every
      reference line and right before `export {}` when it is the last one.
      This is read off the index-wise contract of `Elements`. */
  lemma ContributedDeclarationPlacement(rootDir: string, refs: seq<Reference>, decls: seq<string>, relative: Relativize)
    requires |decls| > 0
    ensures var elements := Elements(rootDir, refs, decls, relative);
      && elements[|elements| - 3] == decls[|decls| - 1]
      && elements[|elements| - 2] == ExportLine
      && (forall i :: 0 <= i < |refs| ==> elements[3 + i] == ReferenceLine(rootDir, refs[i], relative))
      && 3 + |refs| == |elements| - 2 - |decls|
  {
  }

  /** The same placement in the written text: when no line contains a newline,
      the file's lines hold the reference lines first, then every declaration
      in order, the last one directly before `export {}`. */
  lemma DeclarationLinesOfText(rootDir: string, refs: seq<Reference>, decls: seq<string>, relative: Relativize)
    requires |decls| > 0
    requires forall i :: 0 <= i < |refs| ==> '\n' !in ReferenceLine(rootDir, refs[i], relative)
    requires forall j :: 0 <= j < |decls| ==> '\n' !in decls[j]
    ensures var lines := Split(Render(rootDir, refs, decls, relative), '\n');
      && |lines| == 5 + |refs| + |decls|
      && (forall i :: 0 <= i < |refs| ==> lines[3 + i] == ReferenceLine(rootDir, refs[i], relative))
      && (forall j :: 0 <= j < |decls| ==> lines[3 + |refs| + j] == decls[j])
      && lines[|lines| - 3] == decls[|decls| - 1]
      && lines[|lines| - 2] == ExportLine
  {
    RenderLines(rootDir, refs, decls, relative);
  }
}
