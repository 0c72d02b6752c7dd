/** The host platform both components talk to: `localStorage` under the key
    "clipboard-values", the `toaster`, `document.body` and the two clipboard
    strategies. Their outcomes are abstract: a write succeeds or throws,
    `execCommand('copy')` returns true, false or throws, `writeText` resolves or
    rejects. */
module Platform {

  datatype Option<T> = None | Some(value: T)

  /** What `localStorage.getItem("clipboard-values")` returns: nothing, the JSON
      text of a list of strings, or text that `JSON.parse` rejects. */
  datatype Record = Absent | Stored(values: seq<string>) | Malformed

  /** `JSON.parse(localStorage.getItem(storage) ?? '[]')`; None when it throws. */
  function Parsed(r: Record): Option<seq<string>> {
    match r
    case Absent => Some([])
    case Stored(values) => Some(values)
    case Malformed => None
  }

  /** A notification passed to `toaster.toast`. */
  datatype Toast = Toast(title: string, body: string)

  const LoadFailedToast := Toast("Error", "Failed to load saved values")
  const SaveFailedToast := Toast("Error", "Failed to save value.")

  /** The result of `document.execCommand('copy')`. */
  datatype ExecCommandOutcome = ExecTrue | ExecFalse | ExecThrows

  /** What `input.value = text` leaves in a text `<input>`: the HTML value
      sanitization algorithm for text inputs strips every LF and CR. */
  function SanitizedInputValue(text: string): (r: string)
    ensures forall c :: c in r <==> c in text && c != '\n' && c != '\r'
    ensures multiset(r) == multiset(text)['\n' := 0]['\r' := 0]
  {
    if text == [] then []
    else
      assert text == [text[0]] + text[1..];
      if text[0] == '\n' || text[0] == '\r' then SanitizedInputValue(text[1..])
      else [text[0]] + SanitizedInputValue(text[1..])
  }

  /** Sanitization keeps the order of the characters it keeps. */
  lemma {:induction false} SanitizedInputValueAppend(a: string, b: string)
    ensures SanitizedInputValue(a + b) == SanitizedInputValue(a) + SanitizedInputValue(b)
  {
    if a == [] {
      assert a + b == b;
    } else {
      assert (a + b)[1..] == a[1..] + b;
      SanitizedInputValueAppend(a[1..], b);
    }
  }

  /** A text without line breaks is stored in the input unchanged. */
  lemma {:induction false} SanitizedInputValueSingleLine(text: string)
    requires '\n' !in text && '\r' !in text
    ensures SanitizedInputValue(text) == text
  {
    if text != [] {
      SanitizedInputValueSingleLine(text[1..]);
    }
  }

  /** A clipboard call made by the page: the legacy copy of the selected value
      of an input, or `navigator.clipboard.writeText`. */
  datatype ClipboardCall = ExecCommandCopy(selection: string) | WriteText(text: string)

  class Host {
    /** The record under "clipboard-values". */
    var record: Record
    /** Every toast shown, oldest first. */
    var toasts: seq<Toast>
    /** The number of temporary input elements attached to `document.body`. */
    var tempInputs: nat
    /** Every clipboard call made, oldest first. */
    var clipboardCalls: seq<ClipboardCall>

    constructor (initial: Record)
      ensures record == initial && toasts == [] && tempInputs == 0 && clipboardCalls == []
    {
      record := initial;
      toasts := [];
      tempInputs := 0;
      clipboardCalls := [];
    }

    /** `localStorage.setItem("clipboard-values", JSON.stringify(values))`, which
        either replaces the whole record or throws (quota exceeded, storage
        unavailable) and leaves it as it was. */
    method SetItem(values: seq<string>, throws: bool) returns (ok: bool)
      modifies this`record
      ensures ok == !throws
      ensures record == if ok then Stored(values) else old(record)
    {
      ok := !throws;
      if ok {
        record := Stored(values);
      }
    }

    /** `toaster.toast(t)`. */
    method Notify(t: Toast)
      modifies this`toasts
      ensures toasts == old(toasts) + [t]
    {
      toasts := toasts + [t];
    }
  }
}
