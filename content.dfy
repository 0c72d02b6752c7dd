/** The panel component of the plugin: its snippet list, the save and delete
    handlers and the clipboard adapter. React state updates are applied in
    place, and every handler runs to completion before the next one starts. */
module Content {
  import opened Text
  import opened ValueList
  import opened Platform

  const CopySucceededToast := Toast("Success", "Value copied to clipboard")
  const CopyFailedToast := Toast("Error", "Failed to copy to clipboard")

  /** How `copyToClipboardReliable` ends: with a boolean, or by throwing the
      error `execCommand` raised. */
  datatype CopyOutcome = Returned(success: bool) | Threw

  class Panel {
    const host: Host
    var isLoading: bool
    var inputValue: string
    /** The component's cache of the stored list. */
    var clipboardValues: seq<string>

    constructor (host: Host)
      ensures this.host == host
      ensures !isLoading && inputValue == "" && clipboardValues == []
    {
      this.host := host;
      isLoading := false;
      inputValue := "";
      clipboardValues := [];
    }

    /** The cache holds exactly what a load would read from storage. */
    predicate InSync()
      reads this, host
    {
      Parsed(host.record) == Some(clipboardValues)
    }

    /** The text field's `onChange`. */
    method SetInputValue(text: string)
      modifies this`inputValue
      ensures inputValue == text
    {
      inputValue := text;
    }

    /** `saveClipboardValue`: writes the cache with `value` appended, whatever the
        record now holds; a failed write shows a toast and reports false. */
    method SaveClipboardValue(value: string, setItemThrows: bool) returns (success: bool)
      modifies host`record, host`toasts
      ensures success == !setItemThrows
      ensures host.record == if success then Stored(clipboardValues + [value]) else old(host.record)
      ensures host.toasts == old(host.toasts) + if success then [] else [SaveFailedToast]
    {
      success := host.SetItem(clipboardValues + [value], setItemThrows);
      if !success {
        host.Notify(SaveFailedToast);
      }
    }

    /** `loadClipboardValues`: an absent record loads as the empty list; a record
        that fails to parse leaves the cache as it was and shows one toast. */
    method LoadClipboardValues()
      modifies this`clipboardValues, host`toasts
      ensures host.record.Absent? ==> clipboardValues == []
      ensures host.record.Stored? ==> clipboardValues == host.record.values
      ensures host.record.Malformed? ==> clipboardValues == old(clipboardValues)
      ensures host.toasts == old(host.toasts) + if host.record.Malformed? then [LoadFailedToast] else []
      ensures !host.record.Malformed? ==> InSync()
    {
      var parsed := Parsed(host.record);
      if parsed.Some? {
        clipboardValues := parsed.value;
      } else {
        host.Notify(LoadFailedToast);
      }
    }

    /** `deleteClipboardValue`: writes the cache without any occurrence of
        `value`; a failed write only reports false. */
    method DeleteClipboardValue(value: string, setItemThrows: bool) returns (success: bool)
      modifies host`record
      ensures success == !setItemThrows
      ensures host.record == if success then Stored(RemoveAll(clipboardValues, value)) else old(host.record)
    {
      success := host.SetItem(RemoveAll(clipboardValues, value), setItemThrows);
    }

    /** `handleSaveValue`: a blank input changes nothing; otherwise the input is
        appended and stored, and on success the input is cleared and the cache
        reloaded. Loading is off when it returns. */
    method HandleSaveValue(setItemThrows: bool)
      modifies this`isLoading, this`inputValue, this`clipboardValues, host`record, host`toasts
      ensures IsBlank(old(inputValue)) ==> unchanged(this) && unchanged(host)
      ensures !IsBlank(old(inputValue)) ==> !isLoading
      ensures !IsBlank(old(inputValue)) && !setItemThrows ==>
        && host.record == Stored(old(clipboardValues) + [old(inputValue)])
        && clipboardValues == old(clipboardValues) + [old(inputValue)]
        && inputValue == ""
        && host.toasts == old(host.toasts)
      ensures !IsBlank(old(inputValue)) && setItemThrows ==>
        && host.record == old(host.record)
        && clipboardValues == old(clipboardValues)
        && inputValue == old(inputValue)
        && host.toasts == old(host.toasts) + [SaveFailedToast]
      ensures old(InSync()) ==> InSync()
      ensures !IsBlank(old(inputValue)) && !setItemThrows ==> InSync()
    {
      if IsBlank(inputValue) {
        return;
      }
      isLoading := true;
      var success := SaveClipboardValue(inputValue, setItemThrows);
      if success {
        inputValue := "";
        LoadClipboardValues();
      }
      isLoading := false;
    }

    /** `handleDeleteValue`: on success the cache is reloaded from the filtered
        list just written; a failed write changes nothing and shows nothing. */
    method HandleDeleteValue(value: string, setItemThrows: bool)
      modifies this`clipboardValues, host`record, host`toasts
      ensures !setItemThrows ==>
        && host.record == Stored(RemoveAll(old(clipboardValues), value))
        && clipboardValues == RemoveAll(old(clipboardValues), value)
        && InSync()
      ensures setItemThrows ==> unchanged(this) && unchanged(host)
      ensures host.toasts == old(host.toasts)
      ensures old(InSync()) ==> InSync()
    {
      var success := DeleteClipboardValue(value, setItemThrows);
      if success {
        LoadClipboardValues();
      }
    }

    /** `copyToClipboardReliable`: attaches a temporary input whose value is
        `text` with its line breaks stripped, copies that selection with
        `execCommand`, falls back to `writeText` only
        when that returned false, and detaches the input on every exit, the
        throwing one included. */
    method CopyToClipboardReliable(text: string, exec: ExecCommandOutcome, writeTextResolves: bool)
      returns (outcome: CopyOutcome)
      modifies host`tempInputs, host`clipboardCalls
      ensures host.tempInputs == old(host.tempInputs)
      ensures host.clipboardCalls ==
        old(host.clipboardCalls) + [ExecCommandCopy(SanitizedInputValue(text))] + if exec == ExecFalse then [WriteText(text)] else []
      ensures exec == ExecTrue ==> outcome == Returned(true)
      ensures exec == ExecFalse ==> outcome == Returned(writeTextResolves)
      ensures exec == ExecThrows ==> outcome == Threw
    {
      var selection := SanitizedInputValue(text);
      host.tempInputs := host.tempInputs + 1;
      host.clipboardCalls := host.clipboardCalls + [ExecCommandCopy(selection)];
      if exec == ExecThrows {
        outcome := Threw;
      } else {
        var copySuccess := exec == ExecTrue;
        if !copySuccess {
          host.clipboardCalls := host.clipboardCalls + [WriteText(text)];
          copySuccess := writeTextResolves;
        }
        outcome := Returned(copySuccess);
      }
      host.tempInputs := host.tempInputs - 1;
    }

    /** `handleCopyValue`: one success toast when the copy returned true, one
        error toast when it returned false or threw. */
    method HandleCopyValue(value: string, exec: ExecCommandOutcome, writeTextResolves: bool)
      modifies host`tempInputs, host`clipboardCalls, host`toasts
      ensures host.tempInputs == old(host.tempInputs)
      ensures host.clipboardCalls ==
        old(host.clipboardCalls) + [ExecCommandCopy(SanitizedInputValue(value))] + if exec == ExecFalse then [WriteText(value)] else []
      ensures host.toasts == old(host.toasts) +
        if exec == ExecTrue || (exec == ExecFalse && writeTextResolves) then [CopySucceededToast] else [CopyFailedToast]
    {
      var outcome := CopyToClipboardReliable(value, exec, writeTextResolves);
      if outcome == Returned(true) {
        host.Notify(CopySucceededToast);
      } else {
        host.Notify(CopyFailedToast);
      }
    }
  }

  /** On a fresh panel over a stored list without `value`: save `value`, reload,
      delete `value`; the store holds the original list again. */
  method SaveReloadDeleteRestores(values: seq<string>, value: string) returns (stored: Record)
    requires value !in values
    ensures stored == Stored(values)
  {
    var host := new Host(Stored(values));
    var panel := new Panel(host);
    panel.LoadClipboardValues();
    var saved := panel.SaveClipboardValue(value, false);
    panel.LoadClipboardValues();
    var deleted := panel.DeleteClipboardValue(value, false);
    AppendThenRemoveAll(values, value);
    stored := host.record;
  }

  /** Starting from an empty store: add "hello", add "world", delete "hello";
      each reload shows the list so far, and "world" is left. */
  method HelloWorldSession() returns (first: seq<string>, second: seq<string>, last: seq<string>)
    ensures first == ["hello"] && second == ["hello", "world"] && last == ["world"]
  {
    var host := new Host(Absent);
    var panel := new Panel(host);
    panel.LoadClipboardValues();
    panel.SetInputValue("hello");
    assert !IsBlank("hello") by { BlankIffAllWhitespace("hello"); assert !IsJsWhitespace('h'); }
    panel.HandleSaveValue(false);
    first := panel.clipboardValues;
    panel.SetInputValue("world");
    assert !IsBlank("world") by { BlankIffAllWhitespace("world"); assert !IsJsWhitespace('w'); }
    panel.HandleSaveValue(false);
    second := panel.clipboardValues;
    panel.HandleDeleteValue("hello", false);
    last := panel.clipboardValues;
  }

  /** Over a store holding ["a", "b", "a"]: deleting "a" removes both copies. */
  method DeleteEveryCopySession() returns (stored: Record, cache: seq<string>)
    ensures stored == Stored(["b"]) && cache == ["b"]
  {
    var host := new Host(Stored(["a", "b", "a"]));
    var panel := new Panel(host);
    panel.LoadClipboardValues();
    panel.HandleDeleteValue("a", false);
    stored, cache := host.record, panel.clipboardValues;
  }

  /** On any panel whose cache lacks `value`: type `value`, save it through the
      handler (which reloads), then delete it through the handler (which reloads
      again); the store holds the cache the panel started with. */
  method HandlersSaveDeleteRestore(panel: Panel, value: string)
    requires value !in panel.clipboardValues && !IsBlank(value)
    modifies panel, panel.host
    ensures panel.host.record == Stored(old(panel.clipboardValues))
    ensures panel.clipboardValues == old(panel.clipboardValues)
  {
    panel.SetInputValue(value);
    panel.HandleSaveValue(false);
    panel.HandleDeleteValue(value, false);
    AppendThenRemoveAll(old(panel.clipboardValues), value);
  }
}
