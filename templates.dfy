/** The template generator (`TemplateGenerator.cs`): three menu items start
    renaming a new script file in the project window, and once the user
    accepts a name the chosen template is read, its placeholder replaced by
    the script's name, and the text written to a fresh asset path. The
    editor around it is reduced to the state the generator touches and to
    oracles for what the editor decides. */
module Templates {
  import opened Common
  import opened Paths

  /** The title of the generator's dialogs. */
  const Title: string := "LeoECS template generator"

  /** The text every template carries where the script's name goes. */
  const Placeholder: string := "#SCRIPTNAME#"

  /** The three templates, one per menu item. */
  datatype Template = Startup | InitSystem | RunSystem

  /** The file that holds the template, next to the generator's script. */
  function TemplateFile(t: Template): string {
    match t
    case Startup => "Startup.cs.txt"
    case InitSystem => "InitSystem.cs.txt"
    case RunSystem => "RunSystem.cs.txt"
  }

  /** The script name the menu item proposes. */
  function DefaultStem(t: Template): (r: string)
    ensures NoSeparator(r)
  {
    match t
    case Startup => "EcsStartup"
    case InitSystem => "EcsInitSystem"
    case RunSystem => "EcsRunSystem"
  }

  /** The file name the menu item proposes inside `folder`, as
      `string.Format ("{0}/EcsStartup.cs", folder)` and its two siblings
      build it. */
  function DefaultFileName(t: Template, folder: string): string {
    folder + "/" + (DefaultStem(t) + ".cs")
  }

  /** The proposed file sits directly in `folder`, and its script name is
      the proposed one. */
  lemma DefaultFileNameParts(t: Template, folder: string)
    ensures DirectoryName(DefaultFileName(t, folder)) == folder
    ensures FileNameWithoutExtension(DefaultFileName(t, folder)) == DefaultStem(t)
  {
    var stem := DefaultStem(t);
    StemOf(folder, stem, ".cs");
    NoSeparatorAppend(stem, ".cs");
    AfterSeparator(folder, '/', stem + ".cs");
  }

  /** `String.Replace`: scanning left to right, each occurrence of `pat`
      is replaced by `repl` and the scan resumes after it. */
  function ReplaceAll(s: string, pat: string, repl: string): string
    requires |pat| > 0
    decreases |s|
  {
    if |s| < |pat| then s
    else if s[..|pat|] == pat then repl + ReplaceAll(s[|pat|..], pat, repl)
    else [s[0]] + ReplaceAll(s[1..], pat, repl)
  }

  /** `String.IndexOf`: where the first occurrence of `pat` in `s`
      starts, or -1 when there is none. */
  function IndexOf(s: string, pat: string): (k: int)
    requires |pat| > 0
    ensures -1 <= k && (k >= 0 ==> k + |pat| <= |s|)
    decreases |s|
  {
    if |s| < |pat| then -1
    else if s[..|pat|] == pat then 0
    else
      var k := IndexOf(s[1..], pat);
      if k < 0 then -1 else k + 1
  }

  /** `IndexOf` finds the first occurrence: `pat` occurs at the index
      returned, and at no index before it (at none at all for -1). */
  lemma {:induction false} IndexOfFirst(s: string, pat: string)
    requires |pat| > 0
    ensures IndexOf(s, pat) == -1 || OccursAt(s, pat, IndexOf(s, pat))
    ensures forall j :: 0 <= j && (IndexOf(s, pat) < 0 || j < IndexOf(s, pat)) ==> !OccursAt(s, pat, j)
    decreases |s|
  {
    if |s| >= |pat| && s[..|pat|] != pat {
      IndexOfFirst(s[1..], pat);
      OccursAtTail(s, pat);
    }
  }

  /** `pat` occurs in `s` starting at index `j`. */
  predicate OccursAt(s: string, pat: string, j: int) {
    0 <= j && j + |pat| <= |s| && s[j..j + |pat|] == pat
  }

  lemma OccursAtTail(s: string, pat: string)
    requires |s| > 0
    ensures OccursAt(s, pat, 0) <==> |pat| <= |s| && s[..|pat|] == pat
    ensures forall j :: 1 <= j ==> (OccursAt(s, pat, j) <==> OccursAt(s[1..], pat, j - 1))
  {
    forall j | 1 <= j
      ensures OccursAt(s, pat, j) <==> OccursAt(s[1..], pat, j - 1)
    {
      if j + |pat| <= |s| {
        var u, v := s[j..j + |pat|], s[1..][j - 1..j - 1 + |pat|];
        assert |u| == |v|;
        forall i | 0 <= i < |u| ensures u[i] == v[i] {
          assert u[i] == s[j + i] && v[i] == s[1..][j - 1 + i];
        }
        assert u == v;
      }
    }
  }

  /** The replacement described by occurrences: up to the first
      occurrence of `pat` the text is kept, the occurrence becomes `repl`,
      and the rest is treated alike. */
  function ReplaceLeftmost(s: string, pat: string, repl: string): string
    requires |pat| > 0
    decreases |s|
  {
    var k := IndexOf(s, pat);
    if k < 0 then s else s[..k] + repl + ReplaceLeftmost(s[k + |pat|..], pat, repl)
  }

  /** The scan replaces exactly the leftmost non-overlapping occurrences. */
  lemma {:induction false} ReplaceAllLeftmost(s: string, pat: string, repl: string)
    requires |pat| > 0
    ensures ReplaceAll(s, pat, repl) == ReplaceLeftmost(s, pat, repl)
    decreases |s|
  {
    if |s| < |pat| {
      assert IndexOf(s, pat) == -1;
    } else if s[..|pat|] == pat {
      assert OccursAt(s, pat, 0);
      ReplaceLeftmostAt(s, pat, repl);
      ReplaceAllLeftmost(s[|pat|..], pat, repl);
      assert s[..0] + repl == repl;
    } else {
      var t := s[1..];
      ReplaceAllLeftmost(t, pat, repl);
      ReplaceLeftmostTail(s, pat, repl);
    }
  }

  /** An occurrence at the start is the leftmost one. */
  lemma ReplaceLeftmostAt(s: string, pat: string, repl: string)
    requires |pat| > 0 && OccursAt(s, pat, 0)
    ensures ReplaceLeftmost(s, pat, repl) == repl + ReplaceLeftmost(s[|pat|..], pat, repl)
  {
    assert IndexOf(s, pat) == 0;
    assert s[..0] + repl == repl;
  }

  /** Without an occurrence at the start, the first character is kept. */
  lemma ReplaceLeftmostTail(s: string, pat: string, repl: string)
    requires |pat| > 0 && |s| >= |pat| && s[..|pat|] != pat
    ensures ReplaceLeftmost(s, pat, repl) == [s[0]] + ReplaceLeftmost(s[1..], pat, repl)
  {
    if IndexOf(s[1..], pat) < 0 {
      assert IndexOf(s, pat) == -1;
      assert [s[0]] + s[1..] == s;
    } else {
      ReplaceLeftmostLater(s, pat, repl);
    }
  }

  lemma ReplaceLeftmostLater(s: string, pat: string, repl: string)
    requires |pat| > 0 && |s| >= |pat| && s[..|pat|] != pat && IndexOf(s[1..], pat) >= 0
    ensures ReplaceLeftmost(s, pat, repl) == [s[0]] + ReplaceLeftmost(s[1..], pat, repl)
  {
    var t := s[1..];
    var k := IndexOf(t, pat);
    IndexOfShift(s, pat);
    ReplaceLeftmostFound(s, pat, repl, k + 1);
    ReplaceLeftmostFound(t, pat, repl, k);
    TailSlices(s, k, |pat|);
    ConcatAssoc(s[0], t[..k], repl, ReplaceLeftmost(t[k + |pat|..], pat, repl));
  }

  /** The text around the first occurrence. */
  lemma ReplaceLeftmostFound(s: string, pat: string, repl: string, k: nat)
    requires |pat| > 0 && IndexOf(s, pat) == k
    ensures k + |pat| <= |s|
    ensures ReplaceLeftmost(s, pat, repl) == s[..k] + repl + ReplaceLeftmost(s[k + |pat|..], pat, repl)
  {
    ReplaceLeftmostUnfold(s, pat, repl);
    var before := s[..IndexOf(s, pat)];
    var after := s[IndexOf(s, pat) + |pat|..];
    assert before == s[..k];
    assert after == s[k + |pat|..];
  }

  lemma ReplaceLeftmostUnfold(s: string, pat: string, repl: string)
    requires |pat| > 0 && IndexOf(s, pat) >= 0
    ensures ReplaceLeftmost(s, pat, repl) ==
            s[..IndexOf(s, pat)] + repl + ReplaceLeftmost(s[IndexOf(s, pat) + |pat|..], pat, repl)
  {
  }

  /** Without an occurrence at the start, the first occurrence is the
      first one after the first character. */
  lemma IndexOfShift(s: string, pat: string)
    requires |pat| > 0 && |s| >= |pat| && s[..|pat|] != pat && IndexOf(s[1..], pat) >= 0
    ensures IndexOf(s, pat) == IndexOf(s[1..], pat) + 1
  {
  }

  /** Slicing after the first character, shifted by one. */
  lemma TailSlices(s: string, k: nat, m: nat)
    requires k + 1 + m <= |s|
    ensures s[1..][k + m..] == s[k + 1 + m..]
    ensures s[..k + 1] == [s[0]] + s[1..][..k]
  {
  }

  lemma ConcatAssoc(c: char, a: string, b: string, d: string)
    ensures ([c] + a) + b + d == [c] + (a + b + d)
  {
  }

  /** A text without the placeholder comes out unchanged. */
  lemma ReplaceAllAbsent(s: string, pat: string, repl: string)
    requires |pat| > 0 && IndexOf(s, pat) < 0
    ensures ReplaceAll(s, pat, repl) == s
  {
    ReplaceAllLeftmost(s, pat, repl);
  }

  /** The template text with the placeholder replaced by the script name
      of `fileName`, the file name without directory and extension. */
  function Instantiate(proto: string, fileName: string): string {
    ReplaceAll(proto, Placeholder, FileNameWithoutExtension(fileName))
  }

  /** A template instantiated for the proposed file name carries the
      proposed script name, whatever folder the file goes to. */
  lemma InstantiateDefault(t: Template, folder: string, proto: string)
    ensures Instantiate(proto, DefaultFileName(t, folder)) == ReplaceAll(proto, Placeholder, DefaultStem(t))
  {
    DefaultFileNameParts(t, folder);
  }

  /** What the editor reports about the selected object: its asset path
      ("" when nothing, or no asset, is selected), whether the asset
      database contains it, and whether its path is a folder. */
  datatype Selection = Selection(path: string, contained: bool, isFolder: bool)

  /** `GetAssetPath`: the folder new files go to. Without a selected asset
      it is "Assets"; for a selected folder it is that folder; for any
      other selected asset it is its directory: the text before the last
      separator of its path, or "" when the path has none. */
  function GetAssetPath(sel: Selection): (r: string)
    ensures sel.path == "" || !sel.contained ==> r == "Assets"
    ensures sel.path != "" && sel.contained ==> |r| <= |sel.path| && r == sel.path[..|r|]
    ensures sel.path != "" && sel.contained ==> (r == sel.path <==> sel.isFolder)
    ensures sel.path != "" && sel.contained && !sel.isFolder ==>
              if LastSeparator(sel.path) < 0 then r == "" else |r| == LastSeparator(sel.path)
  {
    var path := sel.path;
    if path != "" && sel.contained then
      if !sel.isFolder then DirectoryName(path) else path
    else "Assets"
  }

  /** For a selected asset that is not a folder, the folder is the asset's
      parent directory: the asset's path is that folder, a separator and
      the asset's file name. */
  lemma AssetPathOfFile(sel: Selection)
    requires sel.path != "" && sel.contained && !sel.isFolder && LastSeparator(sel.path) >= 0
    ensures var r := GetAssetPath(sel);
            |r| < |sel.path| && sel.path[|r|] in Separators &&
            sel.path == r + [sel.path[|r|]] + FileName(sel.path)
  {
    SplitPath(sel.path);
  }

  /** A new file proposed while an asset that is not a folder is selected
      goes next to that asset. */
  lemma NewFileBesideSelection(t: Template, sel: Selection)
    requires sel.path != "" && sel.contained && !sel.isFolder
    ensures DirectoryName(DefaultFileName(t, GetAssetPath(sel))) == DirectoryName(sel.path)
  {
    DefaultFileNameParts(t, GetAssetPath(sel));
  }

  /** A dialog box: its title, its message and its button. */
  datatype Dialog = Dialog(title: string, message: string, button: string)

  /** How `CreatePrototype` ends: it returns a message, or null, or it
      throws the null-reference exception of a missing template. */
  datatype Outcome = Returned(message: Option<string>) | NullReference

  /** A name-editing session of the project window: the proposed file
      name and the action run when the user accepts a name. */
  datatype Renaming = Renaming(fileName: string, action: CustomEndNameAction)

  /** The part of the editor the generator drives: the project's files
      by path, how often the asset database was refreshed, the dialogs
      shown, and the project window's name-editing session. The rest is
      fixed input: the asset path of the generator's own script, the
      selection, whether a project window is open, the path
      `GenerateUniqueAssetPath` picks given the paths in use, and the
      message `File.WriteAllText` fails with at a path, if it fails. */
  class Editor {
    var files: map<string, string>
    var refreshes: nat
    var dialogs: seq<Dialog>
    var renaming: Option<Renaming>
    const scriptPath: string
    const selection: Selection
    const projectWindowOpen: bool
    const uniquePath: (set<string>, string) -> string
    const writeError: string -> Option<string>

    constructor (files: map<string, string>, scriptPath: string, selection: Selection, projectWindowOpen: bool,
                 uniquePath: (set<string>, string) -> string, writeError: string -> Option<string>)
      ensures this.files == files && this.scriptPath == scriptPath && this.selection == selection
      ensures this.projectWindowOpen == projectWindowOpen
      ensures this.uniquePath == uniquePath && this.writeError == writeError
      ensures refreshes == 0 && dialogs == [] && renaming == None
    {
      this.files := files;
      this.scriptPath := scriptPath;
      this.selection := selection;
      this.projectWindowOpen := projectWindowOpen;
      this.uniquePath := uniquePath;
      this.writeError := writeError;
      refreshes := 0;
      dialogs := [];
      renaming := None;
    }

    /** `GetProtoContent`: the text of the template file `proto` in the
        folder of the generator's script, or null when it cannot be read. */
    function GetProtoContent(proto: string): (r: Option<string>)
      reads this
    {
      var path := Combine(DirectoryName(scriptPath), proto);
      if path in files then Some(files[path]) else None
    }

    /** What `CreatePrototype` did to the files and the refresh count when
        it ended with `r`. */
    twostate predicate Prototyped(proto: Option<string>, fileName: Option<string>, r: Outcome)
      reads this
    {
      if fileName.None? || fileName.value == "" then
        r == Returned(Some("Invalid filename")) && files == old(files) && refreshes == old(refreshes)
      else if proto.None? then
        r == NullReference && files == old(files) && refreshes == old(refreshes)
      else
        var target := uniquePath(old(files).Keys, fileName.value);
        match writeError(target)
        case Some(message) =>
          r == Returned(Some(message)) && files == old(files) && refreshes == old(refreshes)
        case None =>
          && r == Returned(None)
          && files == old(files)[target := Instantiate(proto.value, fileName.value)]
          && refreshes == old(refreshes) + 1
    }

    /** `CreatePrototype`: rejects a missing or empty file name, then
        instantiates the template, writes it at the path the asset database
        picks, and refreshes the database only when the write succeeded. */
    method CreatePrototype(proto: Option<string>, fileName: Option<string>) returns (r: Outcome)
      modifies this
      ensures Prototyped(proto, fileName, r)
      ensures dialogs == old(dialogs) && renaming == old(renaming)
    {
      if fileName.None? || fileName.value == "" {
        return Returned(Some("Invalid filename"));
      }
      if proto.None? {
        return NullReference;
      }
      var text := Instantiate(proto.value, fileName.value);
      var target := uniquePath(files.Keys, fileName.value);
      var error := writeError(target);
      if error.Some? {
        return Returned(Some(error.value));
      }
      Write(target, text);
      r := Returned(None);
    }

    /** `File.WriteAllText` succeeding at `path`, then
        `AssetDatabase.Refresh`. */
    method Write(path: string, text: string)
      modifies this
      ensures files == old(files)[path := text] && refreshes == old(refreshes) + 1
      ensures dialogs == old(dialogs) && renaming == old(renaming)
    {
      files := files[path := text];
      refreshes := refreshes + 1;
    }

    /** `CreateProto`: shows the message `CreatePrototype` returns, if
        any, in a dialog. */
    method CreateProto(proto: Option<string>, fileName: string) returns (r: Outcome)
      modifies this
      ensures Prototyped(proto, Some(fileName), r)
      ensures dialogs == old(dialogs) + (if r.Returned? && r.message.Some? then [Dialog(Title, r.message.value, "Close")] else [])
      ensures renaming == old(renaming)
    {
      r := CreatePrototype(proto, Some(fileName));
      if r.Returned? && r.message.Some? {
        dialogs := dialogs + [Dialog(Title, r.message.value, "Close")];
      }
    }

    /** The three menu items (`CreateStartupProto`, `CreateInitSystemProto`,
        `CreateRunSystemProto`): start renaming the proposed file in the
        folder `GetAssetPath` picks, with an end-name action whose callback
        creates the item's template. Without a project window nothing
        starts. */
    method CreateTemplateAsset(t: Template) returns (action: CustomEndNameAction)
      modifies this
      ensures fresh(action) && action.callback == Some(t)
      ensures renaming == if projectWindowOpen
                          then Some(Renaming(DefaultFileName(t, GetAssetPath(selection)), action))
                          else old(renaming)
      ensures files == old(files) && refreshes == old(refreshes) && dialogs == old(dialogs)
    {
      var fileName := DefaultFileName(t, GetAssetPath(selection));
      action := new CustomEndNameAction();
      action.callback := Some(t);
      if projectWindowOpen {
        renaming := Some(Renaming(fileName, action));
      }
    }
  }

  /** The template read for a menu item is the template file in the folder
      of the generator's script. */
  lemma TemplateBesideScript(editor: Editor, t: Template, folder: string, script: string)
    requires editor.scriptPath == folder + "/" + script && NoSeparator(script)
    requires folder != "" && folder[|folder| - 1] !in Separators
    ensures editor.GetProtoContent(TemplateFile(t)) ==
              var path := folder + "/" + TemplateFile(t);
              if path in editor.files then Some(editor.files[path]) else None
  {
    AfterSeparator(folder, '/', script);
    assert folder + ['/'] + script == folder + "/" + script;
  }

  /** `CustomEndNameAction`: the action the project window runs when the
      user accepts a name. Its callback is one of the menu items' template
      creations, or none. */
  class CustomEndNameAction {
    var callback: Option<Template>

    constructor ()
      ensures callback == None
    {
      callback := None;
    }

    /** `Action`: runs the callback, if one is set, on the accepted path;
        the callback reads its template and creates the file. */
    method Action(editor: Editor, instanceId: int, pathName: string, resourceFile: string) returns (r: Option<Outcome>)
      modifies editor
      ensures callback.None? ==> r == None && unchanged(editor)
      ensures callback.Some? ==>
                && r.Some?
                && editor.Prototyped(old(editor.GetProtoContent(TemplateFile(callback.value))), Some(pathName), r.value)
                && editor.dialogs == old(editor.dialogs) +
                     (if r.value.Returned? && r.value.message.Some?
                      then [Dialog(Title, r.value.message.value, "Close")] else [])
                && editor.renaming == old(editor.renaming)
    {
      if callback.Some? {
        var proto := editor.GetProtoContent(TemplateFile(callback.value));
        var o := editor.CreateProto(proto, pathName);
        r := Some(o);
      } else {
        r := None;
      }
    }
  }
}
