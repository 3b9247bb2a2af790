/** The editor's pretty printer for type names
    (`EditorHelpers.GetCleanGenericTypeName`): a generic type is shown as its
    name without the arity suffix, followed by its arguments in angle
    brackets. .NET reflection is replaced by an explicit type tree. */
module TypeNames {
  import opened Common

  /** Stand-in for `System.Type`: its `Name` (for a generic type the name
      carries the arity suffix, as in "List`1") and its generic arguments in
      declaration order. A type counts as generic (`IsGenericType`) exactly
      when it has generic arguments. */
  datatype TypeRef = TypeRef(name: string, args: seq<TypeRef>)

  predicate IsGeneric(t: TypeRef) {
    |t.args| > 0
  }

  const Backtick: char := '`'

  /** The text the source returns for `t`, or None where it throws: the
      `Substring (0, LastIndexOf ("`"))` of a generic type whose name has no
      backtick fails with an out-of-range argument. */
  function CleanName(t: TypeRef): Option<string>
    decreases t, 1
  {
    if !IsGeneric(t) then Some(t.name)
    else
      match ArgumentList(t, |t.args|)
      case None => None
      case Some(list) =>
        var k := LastIndexOfAny(t.name, {Backtick});
        if k < 0 then None else Some(t.name[..k] + "<" + list + ">")
  }

  /** The text the source's loop has accumulated after visiting the first
      `n` generic arguments of `t`. While the text is still empty an
      argument contributes its raw `Name`; once it is not, each argument
      contributes ", " and its clean name. */
  function ArgumentList(t: TypeRef, n: nat): Option<string>
    requires n <= |t.args|
    decreases t, 0, n
  {
    if n == 0 then Some("")
    else
      match ArgumentList(t, n - 1)
      case None => None
      case Some(acc) =>
        if |acc| > 0 then
          match CleanName(t.args[n - 1])
          case None => None
          case Some(c) => Some(acc + ", " + c)
        else Some(t.args[n - 1].name)
  }

  /** A type without generic arguments prints as its raw `Name`, backtick
      or not. */
  lemma NonGenericName(t: TypeRef)
    requires !IsGeneric(t)
    ensures CleanName(t) == Some(t.name)
  {
  }

  /** The source's recursive printer, with its loop over the generic
      arguments. */
  method GetCleanGenericTypeName(t: TypeRef) returns (r: Option<string>)
    ensures r == CleanName(t)
    decreases t
  {
    if !IsGeneric(t) {
      return Some(t.name);
    }
    var constraints := "";
    var i := 0;
    while i < |t.args|
      invariant 0 <= i <= |t.args|
      invariant ArgumentList(t, i) == Some(constraints)
    {
      var constr := t.args[i];
      if |constraints| > 0 {
        var c := GetCleanGenericTypeName(constr);
        if c.None? {
          ArgumentListDefined(t, i + 1);
          ArgumentListDefined(t, |t.args|);
          return None;
        }
        constraints := constraints + ", " + c.value;
      } else {
        constraints := constr.name;
      }
      i := i + 1;
    }
    var k := LastIndexOfAny(t.name, {Backtick});
    if k < 0 {
      return None;
    }
    r := Some(t.name[..k] + "<" + constraints + ">");
  }

  /** `parts` separated by `sep`, as `string.Join` writes them. */
  function Join(parts: seq<string>, sep: string): (r: string)
    ensures |parts| > 0 ==> |r| >= |parts[0]|
    decreases |parts|
  {
    if |parts| == 0 then ""
    else if |parts| == 1 then parts[0]
    else parts[0] + sep + Join(parts[1..], sep)
  }

  lemma {:induction false} JoinAppend(parts: seq<string>, sep: string, last: string)
    requires |parts| > 0
    ensures Join(parts + [last], sep) == Join(parts, sep) + sep + last
    decreases |parts|
  {
    if |parts| == 1 {
      assert (parts + [last])[1..] == [last];
    } else {
      assert (parts + [last])[1..] == parts[1..] + [last];
      JoinAppend(parts[1..], sep, last);
    }
  }

  /** Once the first argument has a non-empty name, the loop renders the
      first `n` arguments as the first one's raw name followed by the clean
      names of the others, separated by ", ", in declaration order. */
  lemma {:induction false} ArgumentListIsJoin(t: TypeRef, n: nat, cleaned: seq<string>)
    requires 1 <= n <= |t.args| && t.args[0].name != ""
    requires |cleaned| == n - 1
    requires forall j :: 1 <= j < n ==> CleanName(t.args[j]) == Some(cleaned[j - 1])
    ensures ArgumentList(t, n) == Some(Join([t.args[0].name] + cleaned, ", "))
    decreases n
  {
    if n == 1 {
      assert [t.args[0].name] + cleaned == [t.args[0].name];
    } else {
      var init := cleaned[..n - 2];
      ArgumentListIsJoin(t, n - 1, init);
      JoinAppend([t.args[0].name] + init, ", ", cleaned[n - 2]);
      assert [t.args[0].name] + init + [cleaned[n - 2]] == [t.args[0].name] + cleaned;
    }
  }

  /** The shape of a clean generic name: the part of `Name` before its last
      backtick, then "<", the first argument's raw `Name`, the later
      arguments' clean names, all separated by ", ", then ">". */
  lemma CleanGenericName(t: TypeRef, cleaned: seq<string>)
    requires IsGeneric(t) && Backtick in t.name && t.args[0].name != ""
    requires |cleaned| == |t.args| - 1
    requires forall j :: 1 <= j < |t.args| ==> CleanName(t.args[j]) == Some(cleaned[j - 1])
    ensures CleanName(t) ==
      Some(t.name[..LastIndexOfAny(t.name, {Backtick})] + "<" + Join([t.args[0].name] + cleaned, ", ") + ">")
  {
    ArgumentListIsJoin(t, |t.args|, cleaned);
  }

  /** Index of the first argument with a non-empty name: up to and including
      it, the loop's text is still empty when the argument is visited, so
      the argument is rendered raw and never cleaned. */
  function FirstNamed(args: seq<TypeRef>): (k: nat)
    ensures k <= |args|
    ensures forall j :: 0 <= j < k ==> args[j].name == ""
    ensures k < |args| ==> args[k].name != ""
    decreases |args|
  {
    if |args| == 0 then 0
    else if args[0].name != "" then 0
    else 1 + FirstNamed(args[1..])
  }

  /** The types the source prints without throwing: every generic type it
      cleans has a backtick in its name. Arguments rendered raw are not
      inspected. */
  ghost predicate Printable(t: TypeRef)
    decreases t
  {
    !IsGeneric(t) ||
    (Backtick in t.name &&
     forall j :: FirstNamed(t.args) < j < |t.args| ==> Printable(t.args[j]))
  }

  lemma {:induction false} ArgumentListDefined(t: TypeRef, n: nat)
    requires n <= |t.args|
    ensures ArgumentList(t, n).Some? <==>
            forall j :: FirstNamed(t.args) < j < n ==> CleanName(t.args[j]).Some?
    ensures ArgumentList(t, n).Some? ==> (ArgumentList(t, n).value == "" <==> n <= FirstNamed(t.args))
    decreases n
  {
    if n > 0 {
      ArgumentListDefined(t, n - 1);
    }
  }

  /** The printer throws exactly on the types that are not printable. */
  lemma {:induction false} CleanNameDefinedIff(t: TypeRef)
    ensures CleanName(t).Some? <==> Printable(t)
    decreases t
  {
    if IsGeneric(t) {
      ArgumentListDefined(t, |t.args|);
      forall j | FirstNamed(t.args) < j < |t.args|
        ensures CleanName(t.args[j]).Some? <==> Printable(t.args[j])
      {
        CleanNameDefinedIff(t.args[j]);
      }
    }
  }

  /** The first generic argument keeps its arity suffix: it is printed by
      its raw `Name`, while later arguments are cleaned. */
  lemma FirstArgumentKeptRaw()
    ensures CleanName(TypeRef("Dictionary`2", [TypeRef("List`1", [TypeRef("Int32", [])]), TypeRef("String", [])]))
            == Some("Dictionary<List`1, String>")
  {
    var t := TypeRef("Dictionary`2", [TypeRef("List`1", [TypeRef("Int32", [])]), TypeRef("String", [])]);
    assert t.name[10] == Backtick;
    assert LastIndexOfAny(t.name, {Backtick}) == 10;
    CleanGenericName(t, ["String"]);
    assert [t.args[0].name] + ["String"] == ["List`1", "String"];
    assert Join(["List`1", "String"], ", ") == "List`1, String";
    assert t.name[..10] == "Dictionary";
    assert "Dictionary" + "<" + "List`1, String" + ">" == "Dictionary<List`1, String>";
  }
}
