/**
 * The label and completion state of a tool-invocation badge in the chat UI
 * (uigen/src/components/chat/ToolInvocationBadge.tsx): the file name shown
 * for a path, the human-readable message for a tool call, and whether the
 * call has finished.
 */
module ToolBadge {
  import opened Wrappers
  import Strings

  const StrReplaceEditor: string := "str_replace_editor"
  const FileManager: string := "file_manager"

  /** The filename shown when a call names no path, or an empty one. */
  const DefaultFilename: string := "file"

  /** The `state` of a tool invocation: "partial-call", "call" or "result". */
  datatype InvocationState = PartialCall | Call | ResultState

  /** The two arguments the badge reads; anything else in `args` is ignored. */
  datatype ToolArgs = ToolArgs(command: Option<string>, path: Option<string>)

  /** What `{}` gives: neither a command nor a path. */
  const EmptyArgs: ToolArgs := ToolArgs(None, None)

  /** A tool invocation as the badge receives it; `args` is `None` when null
      or absent, and `result` is `None` while it is `undefined`. */
  datatype ToolInvocation<R> = ToolInvocation(
    toolCallId: string,
    toolName: string,
    args: Option<ToolArgs>,
    state: InvocationState,
    result: Option<R>)

  /** What a message for one of the two known tools says is happening. */
  datatype Action =
    | Creating | Editing | Viewing | UndoingEdit | WorkingOn
    | Renaming | Deleting | Managing

  /** The words in front of the filename for each action, each starting with
      a capital letter. */
  function Verb(a: Action): (r: string)
    ensures |r| > 0 && 'A' <= r[0] <= 'Z'
  {
    match a
    case Creating => "Creating"
    case Editing => "Editing"
    case Viewing => "Viewing"
    case UndoingEdit => "Undoing edit on"
    case WorkingOn => "Working on"
    case Renaming => "Renaming"
    case Deleting => "Deleting"
    case Managing => "Managing"
  }

  /** The action a call of `toolName` with `command` stands for; `None` for a
      tool the badge has no wording for. This is the command table of the badge
      as a value; `GetToolMessage` keeps the source's own switch over literal
      wordings, and its ensures proves the two tables agree. */
  function ActionFor(toolName: string, command: Option<string>): (r: Option<Action>)
    ensures r.None? <==> toolName != StrReplaceEditor && toolName != FileManager
    ensures toolName == StrReplaceEditor ==> r.value in {Creating, Editing, Viewing, UndoingEdit, WorkingOn}
    ensures toolName == FileManager ==> r.value in {Renaming, Deleting, Managing}
  {
    if toolName == StrReplaceEditor then
      Some(match command
        case Some("create") => Creating
        case Some("str_replace") => Editing
        case Some("insert") => Editing
        case Some("view") => Viewing
        case Some("undo_edit") => UndoingEdit
        case _ => WorkingOn)
    else if toolName == FileManager then
      Some(match command
        case Some("rename") => Renaming
        case Some("delete") => Deleting
        case _ => Managing)
    else None
  }

  /** `extractFilename`: the last `/`-separated segment of `path`, or the whole
      path when that segment is empty. */
  function ExtractFilename(path: string): (r: string)
    ensures '/' !in path ==> r == path
    ensures |path| > 0 && path[|path| - 1] == '/' ==> r == path
    ensures |path| > 0 && '/' in path && path[|path| - 1] != '/' ==>
      0 < |r| < |path| && '/' !in r && r == path[|path| - |r|..] && path[|path| - |r| - 1] == '/'
    ensures path != "" ==> r != ""
  {
    var segments := Strings.Split(path, '/');
    Strings.LastPieceIsAfterLast(path, '/');
    Strings.AfterLastCases(path, '/');
    var last := segments[|segments| - 1];
    assert last == Strings.AfterLast(path, '/');
    if last != "" then last else path
  }

  /** The filename a message shows for the `path` argument. */
  function FilenameLabel(path: Option<string>): (r: string)
    ensures path.None? || path == Some("") ==> r == DefaultFilename
    ensures path.Some? && path.value != "" ==> r == ExtractFilename(path.value)
    ensures r != ""
  {
    match path
    case Some(p) => if p != "" then ExtractFilename(p) else DefaultFilename
    case None => DefaultFilename
  }

  /** `getToolMessage`: the badge text for a call of `toolName` with `args`. */
  function GetToolMessage(toolName: string, args: ToolArgs): (r: string)
    ensures ActionFor(toolName, args.command).None? ==> r == toolName
    ensures ActionFor(toolName, args.command).Some? ==>
      r == Verb(ActionFor(toolName, args.command).value) + " " + FilenameLabel(args.path)
  {
    if toolName == StrReplaceEditor then
      var filename := FilenameLabel(args.path);
      match args.command
      case Some("create") => "Creating " + filename
      case Some("str_replace") => "Editing " + filename
      case Some("insert") => "Editing " + filename
      case Some("view") => "Viewing " + filename
      case Some("undo_edit") => "Undoing edit on " + filename
      case _ => "Working on " + filename
    else if toolName == FileManager then
      var filename := FilenameLabel(args.path);
      match args.command
      case Some("rename") => "Renaming " + filename
      case Some("delete") => "Deleting " + filename
      case _ => "Managing " + filename
    else
      toolName
  }

  /** `isComplete`: the call has produced its result. */
  function IsComplete<R>(inv: ToolInvocation<R>): (b: bool)
    ensures b <==> inv.state == ResultState && inv.result.Some?
    ensures inv.state == PartialCall || inv.state == Call ==> !b
  {
    inv.state == ResultState && inv.result != None
  }

  /** The message the badge shows: null or absent args are read as `{}`. */
  function BadgeMessage<R>(inv: ToolInvocation<R>): (r: string)
    ensures inv.args.None? ==> r == GetToolMessage(inv.toolName, EmptyArgs)
    ensures inv.args.Some? ==> r == GetToolMessage(inv.toolName, inv.args.value)
  {
    var args := match inv.args case Some(a) => a case None => EmptyArgs;
    GetToolMessage(inv.toolName, args)
  }

  // ------------------------------------------------------------------
  // Reading a message back: the inverse of the wording for the known tools.

  /** The action whose verb starts with `c`, or `None` when no verb does; no
      two verbs share an initial. */
  function ActionOfInitial(c: char): (r: Option<Action>)
    ensures r.Some? ==> Verb(r.value)[0] == c
    ensures forall a: Action :: Verb(a)[0] == c ==> r == Some(a)
  {
    match c
    case 'C' => Some(Creating)
    case 'E' => Some(Editing)
    case 'V' => Some(Viewing)
    case 'U' => Some(UndoingEdit)
    case 'W' => Some(WorkingOn)
    case 'R' => Some(Renaming)
    case 'D' => Some(Deleting)
    case 'M' => Some(Managing)
    case _ => None
  }

  /** The action and filename a badge message of a known tool spells out;
      `None` for text no such message can be. */
  function ParseToolMessage(msg: string): Option<(Action, string)>
  {
    if |msg| == 0 then None
    else
      match ActionOfInitial(msg[0])
      case None => None
      case Some(a) =>
        var prefix := Verb(a) + " ";
        if prefix <= msg then Some((a, msg[|prefix|..])) else None
  }

  /** Each wording is read back as the same action and filename. */
  lemma ParseVerb(a: Action, filename: string)
    ensures ParseToolMessage(Verb(a) + " " + filename) == Some((a, filename))
  {
    var prefix := Verb(a) + " ";
    var msg := prefix + filename;
    assert msg[0] == Verb(a)[0];
    assert ActionOfInitial(Verb(a)[0]) == Some(a);
    assert msg[|prefix|..] == filename;
  }

  /** A message of `str_replace_editor` or `file_manager` reads back as its
      action and the filename of its path. */
  lemma MessageRoundTrip(toolName: string, args: ToolArgs)
    requires toolName == StrReplaceEditor || toolName == FileManager
    ensures ParseToolMessage(GetToolMessage(toolName, args))
         == Some((ActionFor(toolName, args.command).value, FilenameLabel(args.path)))
  {
    ParseVerb(ActionFor(toolName, args.command).value, FilenameLabel(args.path));
  }

  /** Two equal messages of the known tools name the same action and the same file. */
  lemma MessageDeterminesAction(t1: string, a1: ToolArgs, t2: string, a2: ToolArgs)
    requires t1 == StrReplaceEditor || t1 == FileManager
    requires t2 == StrReplaceEditor || t2 == FileManager
    requires GetToolMessage(t1, a1) == GetToolMessage(t2, a2)
    ensures ActionFor(t1, a1.command) == ActionFor(t2, a2.command)
    ensures FilenameLabel(a1.path) == FilenameLabel(a2.path)
  {
    MessageRoundTrip(t1, a1);
    MessageRoundTrip(t2, a2);
  }

  /** With null, absent or empty args the known tools fall back to their
      generic wording on the default filename. */
  lemma AbsentArgsFallback<R>(inv: ToolInvocation<R>)
    requires inv.args.None? || inv.args == Some(EmptyArgs)
    ensures inv.toolName == StrReplaceEditor ==> BadgeMessage(inv) == "Working on file"
    ensures inv.toolName == FileManager ==> BadgeMessage(inv) == "Managing file"
    ensures inv.toolName != StrReplaceEditor && inv.toolName != FileManager ==>
      BadgeMessage(inv) == inv.toolName
  {
  }
}
