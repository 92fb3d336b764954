/** The editor window `VimiEditor` and its event handlers.

    The toolkit's text widget is modelled by the buffer and the caret, the
    status bar by its text.  What a handler gets from outside the window is a
    parameter: a dialog result, a read or write outcome, or the coordinates the
    toolkit computes.  The file-menu handlers (Open, Save, Save As) also return
    the trace of what they asked for: the dialogs they showed, the files they
    read or wrote and the error boxes they raised.  `OnKeyUp` has no such
    interaction: it only reads its coordinates and returns nothing. */
module Editor {
  import opened Session
  import Quotes
  import Status

  /** The key code of the Tab key. */
  const TabKey: int := 9

  const OpenFailed: string := "No se pudo abrir el archivo:\n"
  const SaveFailed: string := "No se pudo guardar el archivo:\n"
  const SavedPrefix: string := "Guardado: "
  const NewFileStatus: string := "Nuevo archivo"

  /** An interaction of a handler with the world outside the window. */
  datatype Effect =
    | AskOpenPath
    | AskSavePath
    | ReadFile(path: string)
    | WriteFile(path: string, contents: string)
    | ErrorBox(message: string)

  function Min(a: nat, b: nat): nat {
    if a <= b then a else b
  }

  /** The trace of Save As on a buffer: the save dialog, then, when a path was
      confirmed, the write and, if it failed, an error box. */
  function SaveAsEffects(dialog: DialogResult, write: WriteOutcome, contents: string): (t: seq<Effect>)
    ensures |t| >= 1 && t[0] == AskSavePath
    ensures dialog.Cancel? <==> |t| == 1
    ensures dialog.Chosen? ==> t[1] == WriteFile(dialog.path, contents)
    ensures |t| == 3 <==> dialog.Chosen? && write.WriteError?
    ensures |t| == 3 ==> t[2] == ErrorBox(SaveFailed + write.reason)
    ensures dialog.Chosen? && write.WriteOk? ==> |t| == 2
  {
    match dialog
    case Cancel => [AskSavePath]
    case Chosen(p) =>
      match write
      case WriteOk => [AskSavePath, WriteFile(p, contents)]
      case WriteError(e) => [AskSavePath, WriteFile(p, contents), ErrorBox(SaveFailed + e)]
  }

  /** `on_key_up` acts only on coordinates that are present, have at least two
      parts and are not -1; an exception from the toolkit is `None`. */
  predicate UsableCoordinates(coords: Option<seq<int>>) {
    coords.Some? && |coords.value| >= 2 && coords.value[0] != -1 && coords.value[1] != -1
  }

  class VimiEditor {
    var buffer: string
    var caret: nat
    var currentFile: Option<string>
    var status: string

    /** The toolkit keeps the insertion point inside the text. */
    ghost predicate Valid()
      reads this
    {
      caret <= |buffer|
    }

    /** A new window: empty text, no file, status `Nuevo archivo`. */
    constructor ()
      ensures Valid()
      ensures buffer == "" && caret == 0 && currentFile == None && status == NewFileStatus
    {
      buffer := "";
      caret := 0;
      currentFile := None;
      status := "";
      new;
      UpdateStatus(NewFileStatus);
    }

    /** `update_status`: the status bar shows `message`. */
    method UpdateStatus(message: string)
      modifies this
      ensures status == message
      ensures buffer == old(buffer) && caret == old(caret) && currentFile == old(currentFile)
    {
      status := message;
    }

    /** `on_text_change`: straighten typographic quotes, rewriting the buffer
        only when something changed, and put the caret back, clamped to the new
        length. */
    method OnTextChange()
      requires Valid()
      modifies this
      ensures Valid()
      ensures !Quotes.HasCurly(old(buffer)) ==> buffer == old(buffer) && caret == old(caret)
      ensures Quotes.HasCurly(old(buffer)) ==>
                buffer == Quotes.Normalize(old(buffer)) && caret == Min(old(caret), |buffer|)
      ensures !Quotes.HasCurly(buffer)
      ensures |buffer| == |old(buffer)| && caret == old(caret)
      ensures currentFile == old(currentFile) && status == old(status)
    {
      var content := buffer;
      var fixed := Quotes.Normalize(content);
      Quotes.NormalizeFixesExactlyStraightText(content);
      if content != fixed {
        var pos := caret;
        buffer, caret := fixed, 0;  // replacing the value puts the insertion point at the start
        caret := Min(pos, |fixed|);
      }
    }

    /** `on_key_down`: Tab writes one tab character at the caret and stops the
        event; every other key is passed on untouched. */
    method OnKeyDown(keyCode: int) returns (skip: bool)
      requires Valid()
      modifies this
      ensures Valid()
      ensures skip <==> keyCode != TabKey
      ensures keyCode == TabKey ==>
                buffer == old(buffer)[..old(caret)] + "\t" + old(buffer)[old(caret)..] && caret == old(caret) + 1
      ensures keyCode != TabKey ==> buffer == old(buffer) && caret == old(caret)
      ensures currentFile == old(currentFile) && status == old(status)
    {
      if keyCode == TabKey {
        buffer := buffer[..caret] + "\t" + buffer[caret..];
        caret := caret + 1;
        skip := false;
      } else {
        skip := true;
      }
    }

    /** `on_open`: ask for a file; once it has been read, it replaces the text,
        becomes the current file and is named in the status bar.  A failed read
        shows an error box and changes nothing. */
    method OnOpen(dialog: DialogResult, read: ReadOutcome) returns (effects: seq<Effect>)
      requires Valid()
      modifies this
      ensures Valid()
      ensures currentFile == AfterOpen(old(currentFile), dialog, read)
      ensures dialog.Chosen? && read.ReadOk? ==>
                && buffer == read.contents && status == dialog.path
                && caret == (if read.contents == old(buffer) then old(caret) else 0)
      ensures !(dialog.Chosen? && read.ReadOk?) ==>
                buffer == old(buffer) && caret == old(caret) && status == old(status)
      ensures effects == match dialog
                case Cancel => [AskOpenPath]
                case Chosen(p) =>
                  if read.ReadOk? then [AskOpenPath, ReadFile(p)]
                  else [AskOpenPath, ReadFile(p), ErrorBox(OpenFailed + read.reason)]
    {
      effects := [AskOpenPath];
      if dialog.Chosen? {
        var path := dialog.path;
        effects := effects + [ReadFile(path)];
        match read {
          case ReadOk(contents) =>
            if contents != buffer {
              buffer, caret := contents, 0;  // a new value puts the insertion point at the start
            }
            currentFile := Some(path);
            UpdateStatus(path);
          case ReadError(e) =>
            effects := effects + [ErrorBox(OpenFailed + e)];
        }
      }
    }

    /** What Save As does to the window and the trace it leaves, from the
        state before it. */
    twostate predicate SavedAs(dialog: DialogResult, write: WriteOutcome, effects: seq<Effect>)
      reads this
    {
      && buffer == old(buffer) && caret == old(caret)
      && currentFile == AfterSaveAs(old(currentFile), dialog, write)
      && status == (if dialog.Chosen? && write.WriteOk? then dialog.path else old(status))
      && effects == SaveAsEffects(dialog, write, old(buffer))
    }

    /** `on_save_as`: ask for a path; once the buffer has been written there it
        becomes the current file and is named in the status bar. */
    method OnSaveAs(dialog: DialogResult, write: WriteOutcome) returns (effects: seq<Effect>)
      requires Valid()
      modifies this
      ensures Valid()
      ensures SavedAs(dialog, write, effects)
    {
      effects := [AskSavePath];
      if dialog.Chosen? {
        var path := dialog.path;
        effects := effects + [WriteFile(path, buffer)];
        match write {
          case WriteOk =>
            currentFile := Some(path);
            UpdateStatus(path);
          case WriteError(e) =>
            effects := effects + [ErrorBox(SaveFailed + e)];
        }
      }
    }

    /** `on_save`: with a current file, write the buffer there without a
        dialog and confirm in the status bar; without one, do exactly what
        Save As does. */
    method OnSave(dialog: DialogResult, write: WriteOutcome) returns (effects: seq<Effect>)
      requires Valid()
      modifies this
      ensures Valid()
      ensures currentFile == AfterSave(old(currentFile), dialog, write)
      ensures Associated(old(currentFile)) ==>
                && buffer == old(buffer) && caret == old(caret) && currentFile == old(currentFile)
                && status == (if write.WriteOk? then SavedPrefix + currentFile.value else old(status))
                && effects == [WriteFile(currentFile.value, buffer)]
                              + (if write.WriteOk? then [] else [ErrorBox(SaveFailed + write.reason)])
      ensures !Associated(old(currentFile)) ==> SavedAs(dialog, write, effects)
    {
      if Associated(currentFile) {
        var path := currentFile.value;
        effects := [WriteFile(path, buffer)];
        match write {
          case WriteOk =>
            UpdateStatus(SavedPrefix + path);
          case WriteError(e) =>
            effects := effects + [ErrorBox(SaveFailed + e)];
        }
      } else {
        effects := OnSaveAs(dialog, write);
      }
    }

    /** `on_key_up`: show the caret's 1-based row and column after the file's
        name, for coordinates `(x, y)` the toolkit gave for the caret; leave
        the status as it is when they are missing or -1. */
    method OnKeyUp(coords: Option<seq<int>>)
      requires Valid()
      modifies this
      ensures Valid()
      ensures UsableCoordinates(coords) ==>
                status == Status.StatusLine(Status.DisplayName(currentFile), coords.value[0], coords.value[1])
      ensures !UsableCoordinates(coords) ==> status == old(status)
      ensures buffer == old(buffer) && caret == old(caret) && currentFile == old(currentFile)
    {
      if coords.Some? {
        var c := coords.value;
        if |c| >= 1 && c[0] != -1 && |c| >= 2 && c[1] != -1 {
          var x, y := c[0], c[1];
          status := Status.StatusLine(Status.DisplayName(currentFile), x, y);
        }
      }
    }
  }

  /** Sample sessions, checked from the handlers' contracts alone. */
  method QuoteScenario() {
    var ed := new VimiEditor();
    var s := "He said \U{201C}hi\U{201D} and \U{2018}bye\U{2019}.";
    var effects := ed.OnOpen(Chosen("/tmp/a.txt"), ReadOk(s));
    ed.OnTextChange();
    Quotes.NormalizeExample();
    assert ed.buffer == "He said \"hi\" and 'bye'.";
    // the corrected text holds no curly quote, so a second pass is a no-op
    ed.OnTextChange();
    assert ed.buffer == "He said \"hi\" and 'bye'.";
  }

  method SaveScenario(w: WriteOutcome) {
    var ed := new VimiEditor();
    var effects := ed.OnSave(Cancel, w);
    assert effects == [AskSavePath] && ed.currentFile == None;
    effects := ed.OnSaveAs(Chosen("/tmp/a.txt"), WriteOk);
    assert ed.currentFile == Some("/tmp/a.txt");
    effects := ed.OnSave(Cancel, WriteOk);
    assert effects == [WriteFile("/tmp/a.txt", "")];
    assert ed.status == "Guardado: /tmp/a.txt";
    effects := ed.OnOpen(Chosen("/tmp/missing.txt"), ReadError("not found"));
    assert ed.currentFile == Some("/tmp/a.txt");
  }
}
