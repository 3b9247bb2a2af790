# LeoECS Unity integration: a verified model

This project models the parts of the LeoECS Unity integration whose
behaviour can be stated exactly. It leaves out the rendering and the Unity
object lifecycle around them. Each modelled part is an executable Dafny
definition with proved properties:

- **Type-name printer** (`type_names.dfy`). `EditorHelpers.GetCleanGenericTypeName`
  walks an explicit type tree in place of .NET reflection. The recursive
  method with its accumulating loop is proved equal to a specification
  function. That function is then characterised:
  - the exact shape of a generic name;
  - the first generic argument kept raw;
  - exactly the inputs on which the source throws.
- **"D8" number format** (`number_format.dfy`). The id of an entity node is
  formatted this way. The model proves that the id reads back from its text,
  and describes the shape of the text.
- **Debug observers** (`observers.dfy`).
  - The names given to the world and system-group observer objects, with
    the argument-null errors.
  - `EcsWorldObserver` as a class holding the map from entity id to node
    (active flag, name, entity handle) and the reused components cache
    array.
  - The debug callbacks are methods that update the map in place. The
    renaming loop writes into the cache array.
- **Stand-ins for the ECS library** (`ecs.dfy`): entities, worlds, system
  groups and their run items.
  - A run item is a heap object whose `Active` flag the inspector writes.
  - A ghost height and a ghost footprint of run items rule out cyclic
    group graphs.
- **System-group inspector** (`inspector.dfy`). The three recursive walks of
  `EcsSystemsObserverInspector` draw into a recording GUI object.
  - Each walk is proved against a ghost specification function of the
    lines it draws.
  - The run walk's specification also covers the `Active` flags it writes
    back.
  - Lemmas then state what a reader sees at each indent level, which items
    are written, and when the walks descend.
- **Template generator** (`templates.dfy`, with `System.IO.Path` stand-ins
  in `paths.dfy`).
  - Covered: the placeholder substitution of `String.Replace`, the choice
    of target folder, and the proposed file names.
  - `CreatePrototype`, `CreateProto`, the menu items and the end-name action
    are methods on an `Editor` object. It holds the project's files, the
    refresh count, the dialogs shown and the project window's renaming
    session.

`common.dfy` holds `Option`, `Result`, and the last-occurrence search shared
by the printer and the path helpers.

## Model

| member | source | states |
|---|---|---|
| TypeNames.GetCleanGenericTypeName | Runtime/EditorHelpers.cs:15-24 | the recursive printer, with its loop over the generic arguments, returns exactly the text `CleanName` specifies, or None exactly where the source throws |
| TypeNames.NonGenericName | Runtime/EditorHelpers.cs:16-18 | a type without generic arguments prints as its raw `Name` |
| TypeNames.CleanGenericName | Runtime/EditorHelpers.cs:20-23 | a generic type prints as the part of its name before the last backtick, "<", the first argument's raw name and the later arguments' clean names separated by ", ", then ">" |
| TypeNames.ArgumentListIsJoin | Runtime/EditorHelpers.cs:20-21 | after visiting n arguments, the loop's text is the arguments joined by ", " in declaration order |
| TypeNames.ArgumentListDefined | Runtime/EditorHelpers.cs:20-21 | the loop throws exactly when an argument after the first named one cannot be printed; its text stays empty exactly up to the first argument with a non-empty name |
| TypeNames.CleanNameDefinedIff | Runtime/EditorHelpers.cs:23 | the printer throws exactly on types that are not `Printable`: a cleaned generic type whose name has no backtick |
| TypeNames.FirstArgumentKeptRaw | Runtime/EditorHelpers.cs:21 | the type ``Dictionary`2`` with arguments ``List`1`` (of Int32) and String prints as ``Dictionary<List`1, String>``: the first argument keeps its arity suffix |
| NumberFormat.FormatD8RoundTrip | Runtime/EditorHelpers.cs:133 | the id is read back from its "D8" text, negative ids included |
| NumberFormat.FormatD8Shape | Runtime/EditorHelpers.cs:133 | the "D8" text has at least 8 characters, and exactly 8 for ids 0 to 99999999. It is digits after an optional '-', which appears exactly for negative ids. Zeros pad only up to 8 digits: a longer digit string starts with a non-zero digit |
| Observers.WorldObserverNameRoundTrip | Runtime/EditorHelpers.cs:70-72 | naming fails exactly for a null world. Otherwise the optional world name can be read back from "[ECS-WORLD name]" or "[ECS-WORLD]", and the text never reads as a system-group observer's name |
| Observers.SystemsObserverNameRoundTrip | Runtime/EditorHelpers.cs:35-37 | naming fails exactly for a null group. Otherwise the group's optional name can be read back from "[ECS-SYSTEMS name]" or "[ECS-SYSTEMS]", and the text never reads as a world observer's name |
| Observers.EcsSystemsObserver.Create | Runtime/EditorHelpers.cs:35-44 | a null group gives the argument-null error "systems". Otherwise the result is a new observer of that group, named after it |
| Observers.EcsWorldObserver.Create | Runtime/EditorHelpers.cs:70-79 | a null world gives the argument-null error "world". Otherwise the result is a new, valid observer of that world, named after the optional name, with no entity nodes |
| Observers.EcsWorldObserver.constructor | Runtime/EditorHelpers.cs:66-68 | a new observer has an empty node table and an empty 32-slot components cache |
| Observers.ComponentsSuffixDefined | Runtime/EditorHelpers.cs:134-139 | the components part of a name exists exactly when every component type prints, and is then empty or starts with ':' |
| Observers.ComponentsSuffixJoin | Runtime/EditorHelpers.cs:136-137 | with every component printable, the id followed by the components part is the id and the clean type names joined by ':' |
| Observers.EntityNameParts | Runtime/EditorHelpers.cs:132-137 | a node's name is the "D8" id. When the entity is alive and components were asked for, it is followed by ':' and each component's clean type name, in order |
| Observers.EntityNameDefined | Runtime/EditorHelpers.cs:134-137 | naming throws exactly when the entity is alive, components were asked for, and some component type cannot be printed |
| Observers.EntityNameCarriesId | Runtime/EditorHelpers.cs:133-141 | whatever the components, the text of a name before its first ':' reads back as the entity's id |
| Observers.AppendComponentNames | Runtime/EditorHelpers.cs:136-139 | the loop appends exactly the components part to the name, or stops where a type cannot be printed. It empties each cache slot it has read; the slot of an unprintable type, later slots and slots beyond the count keep their contents |
| Observers.EcsWorldObserver.GetComponents | Runtime/EditorHelpers.cs:135 | the first `count` cache slots hold the entity's components in order. The cache array is reused when long enough, and later slots are untouched |
| Observers.EcsWorldObserver.UpdateEntityName | Runtime/EditorHelpers.cs:132-142 | the entity's node takes the name `EntityName` specifies, and no other node changes. A missing node gives the key-not-found fault and an unprintable type the printer's fault. The cache is left as the loop leaves it: the same array when it was long enough, with the slots past the components untouched, otherwise a fresh one |
| Observers.EcsWorldObserver.OnEntityCreated | Runtime/EditorHelpers.cs:85-102 | a new id gets exactly one new active node, named after the "D8" id. A known id's node only takes the new handle and becomes active. No other node changes and the node table stays valid |
| Observers.EcsWorldObserver.OnEntityDestroyed | Runtime/EditorHelpers.cs:104-112 | an unknown id throws and changes nothing. Otherwise the key set is unchanged, and only that node is deactivated and renamed to the bare "D8" id |
| Observers.EcsWorldObserver.OnComponentAdded | Runtime/EditorHelpers.cs:114-117 | renames the entity's node with its components, as `UpdateEntityName` does |
| Observers.EcsWorldObserver.OnComponentRemoved | Runtime/EditorHelpers.cs:119-122 | renames the entity's node with its components, as `UpdateEntityName` does |
| SystemsInspector.KindLabel | Editor/EcsSystems.cs:54-55 | a nested group shows as its name in brackets, or its type name in brackets when it has no name; a plain system shows as its type name (same expression at lines 72 and 90) |
| SystemsInspector.PhaseLines | Editor/EcsSystems.cs:49-61 | every line a filtered walk draws is a label at a deeper indent than where the walk started; an empty group draws nothing |
| SystemsInspector.OnInitSystemsGUI | Editor/EcsSystems.cs:47-63 | the walk draws exactly the lines the init specification gives. Indent level, enabled flag and toggle count end as they started |
| SystemsInspector.OnDestroySystemsGUI | Editor/EcsSystems.cs:82-98 | the walk draws exactly the lines the destroy specification gives. Indent level, enabled flag and toggle count end as they started |
| SystemsInspector.PhaseTopLevel | Editor/EcsSystems.cs:51-90 | one level below the entry indent, the init walk (lines 51-55) and the destroy walk (lines 86-90) each show exactly the labels of the group's own systems of that phase, in list order |
| SystemsInspector.PhaseNothingShown | Editor/EcsSystems.cs:53-58 | a filtered walk draws nothing for systems outside its filter, and so never descends into a group that was not itself shown |
| SystemsInspector.OnRunSystemsGUI | Editor/EcsSystems.cs:65-80 | the walk draws exactly the lines, toggle count and `Active` flags the run specification gives, for every run item reachable from the group. Indent level and enabled flag end as they started |
| SystemsInspector.OnRunItemGUI | Editor/EcsSystems.cs:70-76 | one run item: its toggle is drawn with its current flag and the answer written to `Active`. Its group is walked exactly when the new flag is set |
| SystemsInspector.RunTopLevel | Editor/EcsSystems.cs:69-73 | one level below the entry indent, the run walk shows exactly one toggle per run item of the group, labelled in list order |
| SystemsInspector.RunWalkFrame | Editor/EcsSystems.cs:73 | the run walk writes only the `Active` flags of run items reachable from the group it walks: its own run items and, recursively, those of the groups they run |
| SystemsInspector.RunWalkShape | Editor/EcsSystems.cs:67-79 | the run walk only appends lines: toggles at a deeper indent than where it started, one per toggle answered |
| SystemsInspector.RunWalkUnclicked | Editor/EcsSystems.cs:73-76 | without a click, or with the GUI disabled, every `Active` flag is written back unchanged |
| SystemsInspector.OnInspectorGUI | Editor/EcsSystems.cs:16-37 | draws the three headed sections in order, with the run walk answering toggles as if the GUI were enabled. On return `GUI.enabled` and the indent level are back to their saved values |
| Paths.DirectoryName | Editor/Templates/TemplateGenerator.cs:72 | the directory name is the text before the last separator, or "" when there is none. It is a prefix of the path, strictly shorter for a non-empty path, followed in the path by a separator when non-empty |
| Paths.SplitPath | Editor/Templates/TemplateGenerator.cs:72 | a path with a separator is its directory name, that separator, and its file name |
| Paths.FileNameWithoutExtension | Editor/Templates/TemplateGenerator.cs:58 | the result is the file name up to its last '.' (a prefix followed by a '.', with no '.' after that one), or the whole file name when it has none |
| Paths.CombineSplit | Editor/Templates/TemplateGenerator.cs:20 | combining a folder with a bare file name splits back into that folder (minus a trailing separator) and that file name |
| Paths.StemOf | Editor/Templates/TemplateGenerator.cs:58 | the script name of "folder/stem.ext" is `stem`, whatever the folder |
| Templates.DefaultFileNameParts | Editor/Templates/TemplateGenerator.cs:26-45 | each menu item's proposed "folder/EcsStartup.cs", "folder/EcsInitSystem.cs" or "folder/EcsRunSystem.cs" sits directly in the folder, and its script name is the file name without ".cs" |
| Templates.IndexOfFirst | Editor/Templates/TemplateGenerator.cs:58 | the search finds the first occurrence of the placeholder, and finds none exactly when there is none |
| Templates.ReplaceAllLeftmost | Editor/Templates/TemplateGenerator.cs:58 | the left-to-right scan of `String.Replace` replaces exactly the leftmost non-overlapping occurrences: text before the first occurrence is kept, and the rest is treated alike |
| Templates.ReplaceAllAbsent | Editor/Templates/TemplateGenerator.cs:58 | a template without the placeholder comes out unchanged |
| Templates.InstantiateDefault | Editor/Templates/TemplateGenerator.cs:58 | a template written to the proposed file name gets the proposed script name, whatever the folder |
| Templates.GetAssetPath | Editor/Templates/TemplateGenerator.cs:68-78 | "Assets" without a contained selection. Otherwise a prefix of the selected path, equal to it exactly when it is a folder. For any other asset it is the text before the last separator, or "" when there is none |
| Templates.AssetPathOfFile | Editor/Templates/TemplateGenerator.cs:71-73 | for a selected asset that is not a folder, the folder is its parent directory: the asset's path is that folder, a separator and the file name |
| Templates.NewFileBesideSelection | Editor/Templates/TemplateGenerator.cs:26-31 | a file proposed while a non-folder asset is selected goes into that asset's directory |
| Templates.TemplateBesideScript | Editor/Templates/TemplateGenerator.cs:15-24 | the template read is the file of that name in the generator's script folder, or null when it cannot be read |
| Templates.Editor.CreatePrototype | Editor/Templates/TemplateGenerator.cs:54-66 | a null or empty file name returns "Invalid filename" and writes nothing. A missing template throws. A failed write returns its message and skips the refresh. Otherwise only the unique path gets the instantiated template, there is one refresh, and null is returned |
| Templates.Editor.Write | Editor/Templates/TemplateGenerator.cs:60-64 | a successful write stores the text at the path, and the refresh that follows it is counted |
| Templates.Editor.CreateProto | Editor/Templates/TemplateGenerator.cs:47-52 | has the effects of `CreatePrototype`, and shows a dialog exactly when it returns a message |
| Templates.Editor.CreateTemplateAsset | Editor/Templates/TemplateGenerator.cs:84-88 | a new end-name action carries the item's template creation. Renaming of the proposed file starts only when a project window is open, and files, refreshes and dialogs are untouched |
| Templates.CustomEndNameAction.Action | Editor/Templates/TemplateGenerator.cs:93-97 | without a callback nothing changes. With one, the item's template is read and created at the accepted path, with its dialog |

## Left out

- Unity object lifecycle is not modelled: creating a `GameObject`,
  `SetParent`, `hideFlags`, `DontDestroyOnLoad`, `Destroy`, `OnDestroy`,
  `OnWorldDestroyed` and `OnSystemsDestroyed`. Debug-listener registration
  and removal are not modelled either; they are calls into the ECS library.
- Entity nodes are plain records in the observer's map. The
  `EcsEntityObserver` component is reduced to the entity handle a node
  shows; its world reference is not modelled.
- `EcsWorldObserver.GetStats` and `EcsSystemsObserver.GetSystems` are left
  out. They only forward to the library.
- Logging (`Debug.Log`, `Debug.LogFormat`) is left out.
- Layout and rendering calls are left out: `GUILayout.BeginVertical`,
  `EndVertical`, skins, styles, icons. `LabelField` and `ToggleLeft` are
  kept as appends to a list of drawn lines.
- The user's clicks are an input sequence. A toggle's answer is that
  oracle's.
- `EcsWorldObserver.componentsCache` is a field of each observer; in the
  source it is static and shared by all observers.
- Observers.EcsWorldObserver.GetComponents: the library's fill and
  reallocation policy is assumed. The cache is replaced by a fresh array of
  exactly the needed length when it is too short. The library's code is not
  part of this model.
- The interfaces a system implements (`IEcsInitSystem`,
  `IEcsDestroySystem`) are flags on each item. Reflection over types is an
  explicit type tree, and a type counts as generic exactly when it has
  arguments.
- The `Tree` predicate excludes every cyclic group graph. That includes
  some the source would get through: a cycle reached only through a system
  the filter hides, or through a run item whose toggle comes back off. The
  `height` and `runItems` fields of `EcsSystems` are ghost proof devices,
  not library state.
- Paths: volumes, roots and separator normalisation are not modelled. '/'
  and '\\' both count as separators, and `Path.Combine` joins with '/'.
- `LastIndexOf ("`")` is culture-sensitive in .NET; it is modelled as an
  ordinal search.
- Templates.Editor.GetProtoContent: any failure of `File.ReadAllText` is
  modelled as the file being absent. The temporary `ScriptableObject` used
  to locate the script is not modelled; the script's asset path is a fixed
  input.
- `AssetDatabase.GenerateUniqueAssetPath` and the failure of
  `File.WriteAllText` are oracles fixed when the editor is created. A failed
  write is modelled as writing nothing.
- `ProjectWindowUtil.StartNameEditingIfProjectWindowExists` is modelled
  only as the renaming session it starts. The user accepting a name is a
  call to `CustomEndNameAction.Action`. Unity's code for it is not part of
  this model: when no project window is open, it is assumed to do nothing,
  and in particular not to run the end-name action at once.
- `Path.GetFileNameWithoutExtension` at
  `Editor/Templates/TemplateGenerator.cs:58` runs outside the `try`. On
  runtimes that reject characters not allowed in paths, it throws
  `ArgumentException`. The model has no invalid path characters, so that
  exception is not modelled.
- The three menu items are one method with a template parameter.
- `EditorUtility.DisplayDialog` is a dialog appended to a list; it does not
  block.
