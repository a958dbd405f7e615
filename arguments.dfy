/** A flag or positional parameter a script declares in its header
    (ScriptletRunner/Models/ScriptArgument.swift). */
module Arguments {
  import opened Base
  import opened Text

  /** The declared shape of an argument plus its two run-time fields, `isEnabled` and
      `value`. */
  datatype ScriptArgument = ScriptArgument(
    id: Uuid,
    shortFlag: Option<string>,
    longFlag: Option<string>,
    description: string,
    requiresValue: bool,
    isPositional: bool,
    placeholder: Option<string>,
    isEnabled: bool,
    value: string)

  /** The memberwise initialiser with its defaults; `id` is the freshly drawn `UUID()`. */
  function NewArgument(
    id: Uuid,
    description: string,
    shortFlag: Option<string> := None,
    longFlag: Option<string> := None,
    requiresValue: bool := false,
    isPositional: bool := false,
    placeholder: Option<string> := None): (a: ScriptArgument)
    ensures a.id == id && a.description == description
    ensures a.shortFlag == shortFlag && a.longFlag == longFlag && a.placeholder == placeholder
    ensures a.requiresValue == requiresValue && a.isPositional == isPositional
    ensures !a.isEnabled && a.value == ""
  {
    ScriptArgument(id, shortFlag, longFlag, description, requiresValue, isPositional,
                   placeholder, false, "")
  }

  /** `flagForCommand`: the long flag when there is one, otherwise the short flag. */
  function FlagForCommand(a: ScriptArgument): (r: Option<string>)
    ensures r.None? <==> a.longFlag.None? && a.shortFlag.None?
    ensures a.longFlag.Some? ==> r == a.longFlag
    ensures a.longFlag.None? ==> r == a.shortFlag
  {
    if a.longFlag.Some? then a.longFlag else a.shortFlag
  }

  /** `displayName`, the label the argument editors show: both flags, short first; the
      long flag alone; or, without a long flag, the short flag, the placeholder or
      "argument", the first of those that is there. */
  function DisplayName(a: ScriptArgument): (r: string)
    ensures a.shortFlag.Some? && a.longFlag.Some? ==>
              r == a.shortFlag.value + ", " + a.longFlag.value
    ensures a.shortFlag.None? && a.longFlag.Some? ==> r == a.longFlag.value
    ensures a.longFlag.None? ==> r == a.shortFlag.GetOr(a.placeholder.GetOr("argument"))
  {
    match a.longFlag
    case Some(long) =>
      (match a.shortFlag
       case Some(short) => short + ", " + long
       case None => long)
    case None => a.shortFlag.GetOr(a.placeholder.GetOr("argument"))
  }

  /** The label starts with the short flag and ends with the flag the command line
      passes; an argument without flags shows its placeholder, or "argument". */
  lemma DisplayNameShowsCommandFlag(a: ScriptArgument)
    ensures a.shortFlag.Some? ==> HasPrefix(DisplayName(a), a.shortFlag.value)
    ensures FlagForCommand(a).Some? ==> HasSuffix(DisplayName(a), FlagForCommand(a).value)
    ensures FlagForCommand(a).None? ==> DisplayName(a) == a.placeholder.GetOr("argument")
  {
    if a.shortFlag.Some? && a.longFlag.Some? {
      AppendHasPrefix(a.shortFlag.value, ", " + a.longFlag.value);
      assert a.shortFlag.value + ", " + a.longFlag.value == (a.shortFlag.value + ", ") + a.longFlag.value;
      AppendHasSuffix(a.shortFlag.value + ", ", a.longFlag.value);
    }
  }

  /** `==` and `hash(into:)` look only at the identifier. */
  predicate SameArgument(a: ScriptArgument, b: ScriptArgument) {
    a.id == b.id
  }

  /** Identity survives every change of the run-time fields, and relates exactly the
      arguments that share an id. */
  lemma SameArgumentIsIdentity(a: ScriptArgument, b: ScriptArgument, enabled: bool, value: string)
    ensures SameArgument(a, a.(isEnabled := enabled, value := value))
    ensures SameArgument(a, b) <==> SameArgument(b, a)
    ensures SameArgument(a, b) <==> a.id == b.id
  {
  }
}
