# Vimi editor: a Dafny model of its editing and file-session logic

Vimi is a small wxPython text editor: one window (`VimiEditor`) with a text
area, a file menu (Abrir, Guardar, Guardar como, Salir) and a status bar. This
project models the logic inside its event handlers and proves what that logic
guarantees:

- **Quote correction** (`on_text_change`). Every text change replaces the
  typographic quotes “ ” by `"` and ‘ ’ by `'`. The buffer is rewritten only
  when something changed. The caret is then put back, clamped to the new length.
  Module `Quotes` models the chain of `str.replace` calls as functions. It
  proves that no curly quote survives, that the length is kept, that every
  other character stays in place, and that a second pass changes nothing.
- **The file session** (`current_file`). The session starts with no file.
  Open and Save As set the file only after a successful read or write. Save
  writes straight to the current file, or behaves exactly as Save As when there
  is none. Module `Session` gives each command's effect on `current_file` as a
  function. It proves that nothing returns the session to "no file", and that an
  unassociated session becomes associated exactly when some open or write
  succeeded. For the truthy form of "has a file", these proofs use one fact
  about Python: `open("")` always raises, so every successful read or write
  names a non-empty path.
- **The status line** (`on_key_up`). After a key is released, the status bar
  shows `<name> — Línea: <row>, Col: <col>`, counted from 1. The name is the
  base name of the current file, or `Sin título`. Module `Status` models POSIX
  `basename` and Python's decimal rendering of integers. It proves that the
  status text reads back as the first two entries of the toolkit's coordinate
  tuple, taken as column and row, plus one, and that it determines them.
- **The window** (`Editor.VimiEditor`). This class has fields `buffer`,
  `caret`, `currentFile` and `status`. Its methods are the handlers
  `OnTextChange`, `OnKeyDown` (Tab inserts `"\t"` at the caret),
  `OnOpen`, `OnSave`, `OnSaveAs`, `OnKeyUp` and `UpdateStatus`. Dialogs, file
  reads and writes, and the toolkit's offset-to-coordinates mapping are
  parameters of the handlers:
  - a dialog answer is `Cancel | Chosen(path)`;
  - a read gives `ReadOk(contents) | ReadError(reason)`;
  - a write gives `WriteOk | WriteError(reason)`;
  - coordinates are `None` (the toolkit raised) or the tuple it returned.

  The file-menu handlers (`OnOpen`, `OnSave`, `OnSaveAs`) return the trace of
  their interactions with the outside: dialogs shown, files read or written,
  and error boxes. `OnKeyUp` has no such interaction: it only reads the
  coordinates it is given, and returns nothing.

The model keeps these details of the code:

- The status texts are Spanish: `Línea`, `Col`, `Sin título`,
  `Guardado: <path>` and `Nuevo archivo`.
- After Open and Save As, the status bar shows the full path, not the base
  name.
- `current_file` counts as set by Python truthiness, so an empty path counts
  as no file (`Session.Associated`).
- The caret clamp in `on_text_change` never moves the caret, because
  correction keeps the length. `OnTextChange` states this
  (`caret == old(caret)`).

## Model

| member | source | states |
|---|---|---|
| Quotes.Straighten | src/vimi/editor.py:76-81 | the per-character reference: the result is never a curly quote; it differs from its input exactly when the input is one of the four; “ ” become `"` and ‘ ’ become `'` |
| Quotes.Replace | src/vimi/editor.py:77 | `str.replace` of one character: same length, every occurrence of `from` becomes `to`, every other character is kept |
| Quotes.Normalize | src/vimi/editor.py:76-81 | the corrected text has the same length, holds at each index the straightened input character, and contains no curly quote |
| Quotes.NormalizeFixesExactlyStraightText | src/vimi/editor.py:76-82 | the source's test `content != fixed` holds exactly when the text contains a curly quote (both directions) |
| Quotes.NormalizeIdempotent | src/vimi/editor.py:76-82 | correcting corrected text returns it unchanged, so the buffer is never rewritten twice |
| Quotes.NormalizeAppend | src/vimi/editor.py:76-81 | correction distributes over concatenation, so relative order is kept |
| Quotes.NormalizeChangesOnlyCurly | src/vimi/editor.py:76-81 | a character changes exactly when it is a curly quote; double ones become `"`, single ones `'` |
| Quotes.NormalizeExample | src/vimi/editor.py:76-81 | `He said “hi” and ‘bye’.` becomes `He said "hi" and 'bye'.` |
| Session.Associated | src/vimi/editor.py:120 | the truth value of `current_file`: false for `None` and for the empty path |
| Session.AfterOpen | src/vimi/editor.py:103-108 | `current_file` changes only on a confirmed dialog with a successful read, and then becomes the chosen path |
| Session.AfterSaveAs | src/vimi/editor.py:142-147 | `current_file` changes only on a confirmed dialog with a successful write, and then becomes the chosen path |
| Session.AfterSave | src/vimi/editor.py:120-132 | an associated session keeps its file; an unassociated one gets what Save As gives |
| Session.RunNeverUnassociates | src/vimi/editor.py:95-155 | no sequence of file commands takes a session that has a file back to `None` |
| Session.RunKeepsAssociation | src/vimi/editor.py:95-155 | when no successful command names the empty path (Python's `open("")` raises), a session with a truthy `current_file` keeps a truthy one after any commands |
| Session.RunFromNoneAssociatedIff | src/vimi/editor.py:95-155 | under the same condition, a session starting from `None` ends with a truthy `current_file` exactly when some command succeeded in opening or writing a chosen file |
| Session.StepChangesOnlyBySuccess | src/vimi/editor.py:103-147 | one command changes `current_file` only by setting it to the path of a confirmed, successful open or write |
| Session.RunFromNoneIff | src/vimi/editor.py:95-155 | starting from `None`, the session ends with a file exactly when some command in the sequence succeeded in opening or writing a chosen file |
| Session.RunResultIsStartOrChosen | src/vimi/editor.py:95-155 | the final `current_file` is the initial one or the chosen path of one of the successful commands |
| Session.SavesKeepAssociation | src/vimi/editor.py:120-124 | any number of Saves on an associated session leave `current_file` unchanged, whether the writes succeed or fail |
| Status.Basename | src/vimi/editor.py:168-172 | `os.path.basename`: the longest suffix of the path that holds no `/` |
| Status.BasenameUnique | src/vimi/editor.py:169 | any `/`-free suffix that is the whole path or follows a `/` is the base name, so `Basename`'s contract determines it |
| Status.DisplayName | src/vimi/editor.py:168-172 | an associated file shows as a `/`-free suffix of its path that is the whole path or follows a `/`, which is its base name by `BasenameUnique`; otherwise the name is `Sin título` |
| Status.StatusLine | src/vimi/editor.py:173 | the f-string `<name> — Línea: <y+1>, Col: <x+1>`; what it shows is proved in `StatusLineShowsOneBased` and `StatusLineDeterminesPosition` |
| Status.NatToDecimal | src/vimi/editor.py:173 | the decimal form of a natural number is non-empty, all digits, and has no leading zero |
| Status.DecimalRoundTrip | src/vimi/editor.py:173 | reading the decimal digits back gives the number |
| Status.IntToDecimal | src/vimi/editor.py:173 | the decimal form of an integer is non-empty; every character after the first is a digit, and the first is `-` exactly when the integer is negative (otherwise a digit) |
| Status.IntRoundTrip | src/vimi/editor.py:173 | reading an integer's decimal form back gives the integer |
| Status.IntToDecimalInjective | src/vimi/editor.py:173 | distinct integers are written differently |
| Status.StatusLineDeterminesPosition | src/vimi/editor.py:173 | two carets in the same file that produce the same status text have the same row and column |
| Status.StatusLineShowsOneBased | src/vimi/editor.py:173 | the status text starts with the name and its `Línea`/`Col` fields read back as row + 1 and column + 1 |
| Editor.UsableCoordinates | src/vimi/editor.py:166 | the guard of `on_key_up`: coordinates were returned, have at least two entries, and neither of the first two is -1 |
| Editor.SaveAsEffects | src/vimi/editor.py:136-155 | Save As always shows the save dialog; it writes the buffer only to a confirmed path and raises an error box only when that write fails |
| Editor.VimiEditor.constructor | src/vimi/editor.py:8-15 | a new window has an empty buffer, caret 0, no current file and the status `Nuevo archivo` |
| Editor.VimiEditor.UpdateStatus | src/vimi/editor.py:180-182 | the status becomes the message; nothing else changes |
| Editor.VimiEditor.OnTextChange | src/vimi/editor.py:73-86 | text without a curly quote is left alone; otherwise the buffer becomes its correction and the caret `min(old caret, new length)`; afterwards no curly quote remains and the caret has not moved |
| Editor.VimiEditor.OnKeyDown | src/vimi/editor.py:88-93 | Tab inserts exactly one tab at the caret, advances the caret and stops the event; any other key is passed on with nothing changed |
| Editor.VimiEditor.OnOpen | src/vimi/editor.py:95-116 | after a confirmed, successful read, the buffer is the file's text, the caret is 0 (or unchanged when the text is the same), the status is the path, and `current_file` is the path; a cancel or a failed read changes nothing, and a failed read shows an error box |
| Editor.VimiEditor.OnSaveAs | src/vimi/editor.py:134-155 | the buffer is written to a confirmed path; on success `current_file` and the status become that path; a cancel or failure leaves them, and a failure shows an error box |
| Editor.VimiEditor.OnSave | src/vimi/editor.py:118-132 | with a file: it writes the buffer there without a dialog, keeps `current_file`, and shows `Guardado: <path>` on success or an error box on failure; without one: its effect and trace are exactly those of Save As |
| Editor.VimiEditor.OnKeyUp | src/vimi/editor.py:161-176 | with at least two coordinates, neither -1, the status becomes the display name with 1-based row and column; otherwise it is unchanged; nothing else changes |

## Left out

- Widget construction (menu, fonts, colours, caret object, event binding) has no behaviour to state beyond the constructor's initial state.
- Window title updates (`SetTitle` with the base name) are not modelled: the title is not part of the model's state.
- `on_exit`, window closing and the application main loop are toolkit calls with no logic of their own.
- The file system is not modelled. A read's contents and a write's success are inputs, so "write then open gives back the text" is outside the model. A write that fails after truncating the file is not modelled either.
- UTF-8 encoding and decoding are not modelled: file contents are strings, and a decoding failure is one more `ReadError`.
- Python's `str.replace` is modelled only for the single-character patterns the editor uses.
- `Status.Basename` follows POSIX paths only; Windows drive letters and `\` separators are not modelled.
- The toolkit's mapping from caret offset to column and row is an input of `OnKeyUp`. The model reads the first two entries of the returned tuple as the column and the row, as the handler does.
- Re-entrant `EVT_TEXT` events are not modelled. Replacing the value in Open and inserting the tab in key-down fire a text-change event in the toolkit; a caller of the model runs `OnTextChange` after them itself.
- `WriteText` replaces any selection; the model inserts the tab at the caret with no selection.
- `event.Skip()` in `on_text_change` and `on_key_up` always passes the event on. Only `OnKeyDown`, where it depends on the key, returns it.
- The title ("Error") and icon of the error boxes are not modelled; only their message is.
- Editor.VimiEditor.OnOpen: where the insertion point goes after `SetValue` is toolkit behaviour that `on_open` does not set. The model takes it to move to the start when the text changes and to stay where it was when the new text equals the old.
- The handlers accept any answer from the environment, including a successful read or write of the empty path, which Python's `open` never gives. The lemmas that need this fact take it as the condition `Session.OpensOnlyNamedFiles`.
- Editor.VimiEditor.OnKeyUp: the model takes the tuple from the toolkit's offset-to-coordinates call to begin with (column, row), as the handler's `x, y = coords[:2]` reads it. wxPython 4's `PositionToXY` may instead return `(ok, x, y)`. In that case the handler tests and shows the success flag and the column, not the column and the row. The model does not decide which shape the toolkit returns.
