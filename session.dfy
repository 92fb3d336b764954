/** The editor's one piece of session state, `current_file`, and how the
    file menu moves it.

    `current_file` starts as `None` and is assigned only after a successful
    read (Open) or write (Save As, or Save while nothing is associated).  The
    answers of the file dialogs and of the file system are not computed here:
    they are the inputs of each command. */
module Session {

  datatype Option<T> = None | Some(value: T)

  /** Python's truth value of `current_file`: neither `None` nor the empty path. */
  predicate Associated(file: Option<string>) {
    file.Some? && file.value != ""
  }

  /** What a modal file dialog answered: cancelled, or confirmed with a path. */
  datatype DialogResult = Cancel | Chosen(path: string)

  /** What reading the chosen file gave: its whole text, or the error raised. */
  datatype ReadOutcome = ReadOk(contents: string) | ReadError(reason: string)

  /** What writing the buffer gave. */
  datatype WriteOutcome = WriteOk | WriteError(reason: string)

  /** A file-menu command together with the answers the environment gives it. */
  datatype Command =
    | Open(dialog: DialogResult, read: ReadOutcome)
    | Save(dialog: DialogResult, write: WriteOutcome)
    | SaveAs(dialog: DialogResult, write: WriteOutcome)

  /** `current_file` after Open: the chosen path once it has been read. */
  function AfterOpen(file: Option<string>, dialog: DialogResult, read: ReadOutcome): (r: Option<string>)
    ensures r != file ==> dialog.Chosen? && read.ReadOk? && r == Some(dialog.path)
    ensures dialog.Chosen? && read.ReadOk? ==> r == Some(dialog.path)
  {
    if dialog.Chosen? && read.ReadOk? then Some(dialog.path) else file
  }

  /** `current_file` after Save As: the chosen path once it has been written. */
  function AfterSaveAs(file: Option<string>, dialog: DialogResult, write: WriteOutcome): (r: Option<string>)
    ensures r != file ==> dialog.Chosen? && write.WriteOk? && r == Some(dialog.path)
    ensures dialog.Chosen? && write.WriteOk? ==> r == Some(dialog.path)
  {
    if dialog.Chosen? && write.WriteOk? then Some(dialog.path) else file
  }

  /** `current_file` after Save: unchanged when a file is associated (the
      buffer is written there and no dialog is shown), and otherwise whatever
      Save As makes of it. */
  function AfterSave(file: Option<string>, dialog: DialogResult, write: WriteOutcome): (r: Option<string>)
    ensures Associated(file) ==> r == file
    ensures !Associated(file) ==> r == AfterSaveAs(file, dialog, write)
  {
    if Associated(file) then file else AfterSaveAs(file, dialog, write)
  }

  function Step(file: Option<string>, cmd: Command): Option<string> {
    match cmd
    case Open(d, rd) => AfterOpen(file, d, rd)
    case Save(d, w) => AfterSave(file, d, w)
    case SaveAs(d, w) => AfterSaveAs(file, d, w)
  }

  /** `current_file` after a session's commands, in order. */
  function Run(file: Option<string>, cmds: seq<Command>): Option<string>
    decreases |cmds|
  {
    if cmds == [] then file else Run(Step(file, cmds[0]), cmds[1..])
  }

  /** The commands that associate a file with an unassociated session: a
      confirmed dialog followed by a successful read or write. */
  predicate Establishes(cmd: Command) {
    match cmd
    case Open(d, rd) => d.Chosen? && rd.ReadOk?
    case Save(d, w) => d.Chosen? && w.WriteOk?
    case SaveAs(d, w) => d.Chosen? && w.WriteOk?
  }

  /** The path a successful command leaves in `current_file`, when it sets it. */
  function ChosenPath(cmd: Command): string {
    match cmd
    case Open(d, _) => if d.Chosen? then d.path else ""
    case Save(d, _) => if d.Chosen? then d.path else ""
    case SaveAs(d, _) => if d.Chosen? then d.path else ""
  }

  /** No command returns the session to `None`. */
  lemma {:induction false} RunNeverUnassociates(file: Option<string>, cmds: seq<Command>)
    requires file.Some?
    ensures Run(file, cmds).Some?
    decreases |cmds|
  {
    if cmds != [] {
      RunNeverUnassociates(Step(file, cmds[0]), cmds[1..]);
    }
  }

  /** One step changes `current_file` only by setting it to the path of a
      successful command. */
  lemma StepChangesOnlyBySuccess(file: Option<string>, cmd: Command)
    ensures Step(file, cmd) != file ==> Establishes(cmd) && Step(file, cmd) == Some(ChosenPath(cmd))
  {
  }

  /** A session that started unassociated ends associated exactly when one of
      its commands succeeded in opening or writing a chosen file. */
  lemma {:induction false} RunFromNoneIff(cmds: seq<Command>)
    ensures Run(None, cmds).Some? <==> exists k :: 0 <= k < |cmds| && Establishes(cmds[k])
    decreases |cmds|
  {
    if cmds != [] {
      var next := Step(None, cmds[0]);
      if Establishes(cmds[0]) {
        RunNeverUnassociates(next, cmds[1..]);
      } else {
        assert next == None;
        RunFromNoneIff(cmds[1..]);
        assert forall k :: 1 <= k < |cmds| ==> cmds[k] == cmds[1..][k - 1];
        if exists k :: 0 <= k < |cmds[1..]| && Establishes(cmds[1..][k]) {
          var k :| 0 <= k < |cmds[1..]| && Establishes(cmds[1..][k]);
          assert Establishes(cmds[k + 1]);
        }
      }
    }
  }

  /** Whatever a session ends with is either where it started or the path
      chosen by one of its successful commands. */
  lemma {:induction false} RunResultIsStartOrChosen(file: Option<string>, cmds: seq<Command>)
    ensures Run(file, cmds) == file
         || exists k :: 0 <= k < |cmds| && Establishes(cmds[k]) && Run(file, cmds) == Some(ChosenPath(cmds[k]))
    decreases |cmds|
  {
    if cmds != [] {
      var next := Step(file, cmds[0]);
      StepChangesOnlyBySuccess(file, cmds[0]);
      RunResultIsStartOrChosen(next, cmds[1..]);
      if Run(next, cmds[1..]) == next {
        if next != file {
          assert Establishes(cmds[0]) && Run(file, cmds) == Some(ChosenPath(cmds[0]));
        }
      } else {
        var k :| 0 <= k < |cmds[1..]| && Establishes(cmds[1..][k]) && Run(next, cmds[1..]) == Some(ChosenPath(cmds[1..][k]));
        assert cmds[1..][k] == cmds[k + 1];
      }
    }
  }

  /** Save on an associated session never moves `current_file`, whatever the
      write gives. */
  lemma {:induction false} SavesKeepAssociation(file: Option<string>, cmds: seq<Command>)
    requires Associated(file)
    requires forall k :: 0 <= k < |cmds| ==> cmds[k].Save?
    ensures Run(file, cmds) == file
    decreases |cmds|
  {
    if cmds != [] {
      assert cmds[0].Save?;
      assert Step(file, cmds[0]) == file;
      assert forall k :: 0 <= k < |cmds[1..]| ==> cmds[1..][k] == cmds[k + 1];
      SavesKeepAssociation(file, cmds[1..]);
    }
  }

  /** Python's `open("")` always raises, so no read or write of the empty path
      succeeds: every command that establishes a file names a non-empty one. */
  predicate OpensOnlyNamedFiles(cmds: seq<Command>) {
    forall k :: 0 <= k < |cmds| && Establishes(cmds[k]) ==> ChosenPath(cmds[k]) != ""
  }

  /** A session whose `current_file` is set (truthy) never goes back to being
      unassociated. */
  lemma RunKeepsAssociation(file: Option<string>, cmds: seq<Command>)
    requires Associated(file)
    requires OpensOnlyNamedFiles(cmds)
    ensures Associated(Run(file, cmds))
  {
    RunResultIsStartOrChosen(file, cmds);
  }

  /** Starting with no file, the session ends associated exactly when some
      command succeeded in opening or writing a chosen file. */
  lemma RunFromNoneAssociatedIff(cmds: seq<Command>)
    requires OpensOnlyNamedFiles(cmds)
    ensures Associated(Run(None, cmds)) <==> exists k :: 0 <= k < |cmds| && Establishes(cmds[k])
  {
    RunFromNoneIff(cmds);
    RunResultIsStartOrChosen(None, cmds);
  }
}
