# `nuxi prepare` — reference assembly and `nuxt.d.ts` rendering

This project models the pure core of the `prepare` command of `nuxi`, the Nuxt
command-line tool (`packages/nuxi/src/commands/prepare.ts`). The command loads
the Nuxt options of a project, builds a list of TypeScript references (one per
string module identifier, starting with the framework's own `nuxt3` namespace),
lets `prepare:types` hook listeners extend the references and add raw
declarations, and writes `nuxt.d.ts`: two comment lines, a blank line, one
`/// <reference ... />` line per reference, the declarations verbatim,
`export {}` and a final newline.

Modules:

- `Text` (`text.dfy`): `Array.prototype.join` and a one-character
  `String.prototype.split`, with the lemmas that relate them (split undoes join
  and join undoes split), plus prefix and suffix facts about joined text.
- `Refs` (`refs.dfy`): the data model. An attribute value is a string or
  `undefined`; only a non-empty string is truthy. A reference object is the
  list of `(key, value)` pairs that `Object.entries` yields for it, so property
  order is entry order.
- `Assembly` (`assembly.dfy`): the version-dependent ad-hoc module list, the
  ordered source list, the `typeof f === 'string'` filter (a tagged union
  `Id(id) | Other` stands for the configured entries), package-name resolution
  with fallback to the identifier, and the assembled reference list.
- `Declaration` (`declaration.dfy`): `renderAttr`, `renderAttrs`, the `path`
  rewrite through `relative(rootDir, ·)`, the reference line, the element list
  and the joined file text.
- `Prepare` (`prepare.dfy`): the whole pipeline with the `prepare:types` hook
  as a function from the (references, declarations) pair to the pair the
  listeners leave behind.

Foreign helpers are parameters: `getNearestPackage(id, modulePaths)?.name` is
a `NameLookup` function, `upath.relative` is a `Relativize` function, and the
hook is a `TypesHook` function. Nothing about their internals is assumed.

Rendering notes:

- Attributes are rendered in `Object.entries` order, that is, in the order the
  reference's properties were created.
- A falsy attribute renders as the empty string but keeps its separator, so a
  reference with `n` entries always has `n - 1` joining spaces.
- The final `''` element gives the file a single trailing newline after
  `export {}`.

## Model

| member | source | states |
|---|---|---|
| Assembly.AdHocModules | packages/nuxi/src/commands/prepare.ts:22-24 | `@nuxt/kit` is always first; `@nuxt/nitro` is present exactly when the major version is 3; the list has two entries for version 3 and one otherwise |
| Assembly.Sources | packages/nuxi/src/commands/prepare.ts:28-34 | the unfiltered sources start with `nuxt3`; their count is one plus the ad-hoc modules plus all three configured lists |
| Assembly.StringIds | packages/nuxi/src/commands/prepare.ts:35 | the filter keeps only string identifiers, keeps every one of them, and drops nothing exactly when every entry is a string |
| Assembly.StringIdsAppend | packages/nuxi/src/commands/prepare.ts:35 | filtering a concatenation is the concatenation of the filtered parts, so kept strings stay in their relative order |
| Assembly.StringIdsOfIds | packages/nuxi/src/commands/prepare.ts:35 | a list made only of strings passes the filter unchanged |
| Assembly.SourceIds | packages/nuxi/src/commands/prepare.ts:28-35 | the surviving identifiers are `nuxt3`, the ad-hoc modules, then the strings of `buildModules`, `modules` and `_modules`, in that order |
| Assembly.ResolveName | packages/nuxi/src/commands/prepare.ts:36 | the reference name is the nearest package's name when that is truthy, and the identifier otherwise; a non-empty identifier never gives an empty name |
| Assembly.Assemble | packages/nuxi/src/commands/prepare.ts:28-36 | exactly one reference per surviving identifier, in order, each with the single key `types` holding the resolved name, none with a `path` key |
| Assembly.AssembleShape | packages/nuxi/src/commands/prepare.ts:22-36 | the first reference is the resolved `nuxt3` namespace, the second `@nuxt/kit`, and the count is one plus the ad-hoc modules plus the string entries of the three lists |
| Assembly.ExampleIds | packages/nuxi/src/commands/prepare.ts:22-35 | for any identifiers `a`, `b`, `c`: build modules `a`, `b`, module `c`, a non-string `_modules` entry and version 3 give `nuxt3, @nuxt/kit, @nuxt/nitro, a, b, c` |
| Declaration.RenderAttr | packages/nuxi/src/commands/prepare.ts:70-72 | a truthy value renders as `key="value"`; the result is empty exactly when the value is falsy |
| Declaration.AttrParts | packages/nuxi/src/commands/prepare.ts:67 | one rendering per entry, in entry order, each the rendering of that entry's key and value |
| Declaration.RenderAttrs | packages/nuxi/src/commands/prepare.ts:66-68 | the rendered attributes take the rendered entries' length plus one space per gap between entries, and start with the first entry's rendering |
| Declaration.RenderAttrsSplit | packages/nuxi/src/commands/prepare.ts:66-68 | when no rendered entry contains a space, splitting the rendered attributes on spaces gives back exactly the rendered entries in entry order |
| Declaration.RenderAttrsCons | packages/nuxi/src/commands/prepare.ts:66-68 | for every reference, a single entry renders alone, and otherwise the first entry's rendering is followed by exactly one space and the rendering of the remaining entries |
| Declaration.RenderAttrsAllFalsy | packages/nuxi/src/commands/prepare.ts:66-72 | a reference whose `n` values are all falsy renders as exactly `n - 1` spaces |
| Declaration.RewritePath | packages/nuxi/src/commands/prepare.ts:50-52 | keys and their order are kept, non-`path` entries are unchanged, the `path` value becomes `relative(rootDir, path)`, a reference without `path` is returned unchanged, and distinct keys stay distinct |
| Declaration.ReferenceLine | packages/nuxi/src/commands/prepare.ts:49-54 | the line starts with `/// <reference `, ends with ` />`, and holds exactly the rendered attributes of the rewritten reference in between |
| Declaration.SingleEntryLine | packages/nuxi/src/commands/prepare.ts:49-54 | a one-entry reference renders as one attribute, a `path` value being made relative first |
| Declaration.PathReferenceExample | packages/nuxi/src/commands/prepare.ts:50-53 | `{ path: '/abs/project/types/foo.d.ts' }` under root `/abs/project` renders as `/// <reference path="types/foo.d.ts" />` when `relative` yields `types/foo.d.ts` |
| Declaration.Framed | packages/nuxi/src/commands/prepare.ts:45-57 | both comment lines and `''` come before the body, the body is kept unchanged, and `export {}` and `''` follow it; five entries more than the body |
| Declaration.Elements | packages/nuxi/src/commands/prepare.ts:45-57 | the element list has `5 + refs + decls` entries: both comment lines and `''`, one reference line per reference in order, the declarations verbatim in order, then `export {}` and `''` |
| Declaration.FramedText | packages/nuxi/src/commands/prepare.ts:45-58 | whatever lies between header and footer, the joined text starts with the two comment lines and a blank line and ends with `\nexport {}\n` |
| Declaration.Render | packages/nuxi/src/commands/prepare.ts:45-58 | the file text starts with the two comment lines and a blank line and ends with `export {}` and a newline |
| Declaration.RenderFirstLine | packages/nuxi/src/commands/prepare.ts:45-54 | the first reference line, followed by a newline, comes right after the preamble |
| Declaration.RenderLines | packages/nuxi/src/commands/prepare.ts:45-58 | when no reference line or declaration contains a newline, splitting the file on newlines gives back exactly the element list, so it has `5 + refs + decls` lines |
| Declaration.RenderDependsOnPathsOnly | packages/nuxi/src/commands/prepare.ts:45-58 | two `relative` functions that agree on the path values present give identical text, so rendering is a function of root, references and declarations |
| Text.Join | packages/nuxi/src/commands/prepare.ts:58 | the joined text is as long as all parts together plus one separator for each gap between neighbouring parts |
| Text.JoinAppend | packages/nuxi/src/commands/prepare.ts:58 | joining two non-empty lists equals joining each with one separator between |
| Text.JoinEmpties | packages/nuxi/src/commands/prepare.ts:67 | joining `n` empty strings with a one-character separator yields `n - 1` copies of it |
| Text.JoinSplit | packages/nuxi/src/commands/prepare.ts:58 | splitting text on a character and joining the pieces with it restores the text |
| Text.SplitJoin | packages/nuxi/src/commands/prepare.ts:58 | joining separator-free pieces with a character and splitting on it restores the pieces |
| Prepare.Generate | packages/nuxi/src/commands/prepare.ts:22-58 | for any configuration, package lookup, hook listeners and `relative`, the written text starts with the comment preamble and ends with `export {}` and a newline |
| Prepare.NamespaceReferenceFirst | packages/nuxi/src/commands/prepare.ts:28-54 | when listeners only append references, the first reference line is `/// <reference types="N" />` for the resolved `nuxt3` name `N`, right after the preamble |
| Prepare.TypesReferenceLine | packages/nuxi/src/commands/prepare.ts:36-53 | a `{ types: name }` reference with a non-empty name renders as `/// <reference types="name" />` |
| Prepare.WithoutListeners | packages/nuxi/src/commands/prepare.ts:38-57 | with no listeners the file is rendered from the assembled references and no declarations, giving six fixed-and-namespace lines plus one per other identifier |
| Prepare.ContributedDeclarationPlacement | packages/nuxi/src/commands/prepare.ts:45-57 | every reference line precedes the declarations, and the last declaration sits right before `export {}` |
| Prepare.DeclarationLinesOfText | packages/nuxi/src/commands/prepare.ts:45-58 | when no line contains a newline, the lines of the written text hold the reference lines, then every declaration in order, the last directly before `export {}` |

## Left out

- Setting `NODE_ENV` and reading the root argument (lines 16-17): environment and command-line plumbing; the root directory is an input.
- `requireModule`, `loadNuxt` and `getModulePaths` (lines 19-20, 26): module loading and configuration loading belong to Nuxt; the relevant options and the module search paths are inputs.
- The `builder:generateApp` hook (line 40): it exchanges no data with this command.
- The `prepare:types` hook (line 41) is modelled only by its effect on the two lists; listeners that throw, and the asynchronous dispatch, are not modelled.
- `upath.relative`, `upath.resolve` and `getNearestPackage` are uninterpreted functions, so the claim that every emitted path is relative to the root (rather than absolute) cannot be stated; the model only says the path is whatever `relative(rootDir, path)` returns.
- `relative` applied to a `path` key whose value is not a string would throw in Node; the model passes the value to the uninterpreted function instead.
- References are values, not shared objects: the source rewrites `path` in place on each reference object, so an object that listeners push twice has its path made relative twice, and the second line shows the twice-rewritten path, while the model rewrites each list element from its original value. An inherited `path` property is also out of scope: the key test in the source sees prototype properties and the assignment then adds an own `path` entry at the end, while the model only looks at the reference's own entries.
- Attribute values other than strings and `undefined` (numbers, `null`, objects) are not modelled.
- Integer-like property keys, which `Object.entries` lists before the other keys, are outside the model: a reference is given directly by its entry list.
- Computing `declarationPath`, `fsp.writeFile` and the success message (lines 43, 60-62): file output and logging.
- Prepare.Generate: states only the fixed beginning and end of the text; the reference lines and declarations in between are stated by Declaration.Elements and Declaration.RenderLines.
