/** The "Save a new value" modal: its own cache of the stored list, its save
    handler and the `closeModal` callback it was given. */
module SaveValueModal {
  import opened Text
  import opened Platform

  class Modal {
    const host: Host
    var isLoading: bool
    /** The modal's own cache of the stored list, loaded when it opens. */
    var clipboardValues: seq<string>
    /** How many times the `closeModal` callback has been called. */
    var closeModalCalls: nat

    constructor (host: Host)
      ensures this.host == host
      ensures !isLoading && clipboardValues == [] && closeModalCalls == 0
    {
      this.host := host;
      isLoading := false;
      clipboardValues := [];
      closeModalCalls := 0;
    }

    /** The cache holds exactly what a load would read from storage. */
    predicate InSync()
      reads this, host
    {
      Parsed(host.record) == Some(clipboardValues)
    }

    /** `loadClipboardValues`: an absent record loads as the empty list; a record
        that fails to parse leaves the cache as it was and shows one toast. */
    method LoadClipboardValues()
      modifies this`clipboardValues, host`toasts
      ensures host.record.Absent? ==> clipboardValues == []
      ensures host.record.Stored? ==> clipboardValues == host.record.values
      ensures host.record.Malformed? ==> clipboardValues == old(clipboardValues)
      ensures host.toasts == old(host.toasts) + if host.record.Malformed? then [LoadFailedToast] else []
      ensures !host.record.Malformed? ==> InSync()
    {
      var parsed := Parsed(host.record);
      if parsed.Some? {
        clipboardValues := parsed.value;
      } else {
        host.Notify(LoadFailedToast);
      }
    }

    /** `saveClipboardValue`: writes the cache with `value` appended, whatever the
        record now holds; a failed write shows a toast and reports false. Loading
        is off on both paths. */
    method SaveClipboardValue(value: string, setItemThrows: bool) returns (success: bool)
      modifies this`isLoading, host`record, host`toasts
      ensures success == !setItemThrows
      ensures host.record == if success then Stored(clipboardValues + [value]) else old(host.record)
      ensures host.toasts == old(host.toasts) + if success then [] else [SaveFailedToast]
      ensures !isLoading
    {
      isLoading := true;
      success := host.SetItem(clipboardValues + [value], setItemThrows);
      if !success {
        host.Notify(SaveFailedToast);
      }
      isLoading := false;
    }

    /** `handleSaveValue`: an undefined or blank value changes nothing and keeps
        the modal open; otherwise the value is appended and stored, the cache is
        reloaded only on success, and the modal is closed exactly once. */
    method HandleSaveValue(value: Option<string>, setItemThrows: bool)
      modifies this`isLoading, this`clipboardValues, this`closeModalCalls, host`record, host`toasts
      ensures value.None? || IsBlank(value.value) ==> unchanged(this) && unchanged(host)
      ensures value.Some? && !IsBlank(value.value) ==>
        && !isLoading
        && closeModalCalls == old(closeModalCalls) + 1
      ensures value.Some? && !IsBlank(value.value) && !setItemThrows ==>
        && host.record == Stored(old(clipboardValues) + [value.value])
        && clipboardValues == old(clipboardValues) + [value.value]
        && host.toasts == old(host.toasts)
        && InSync()
      ensures value.Some? && !IsBlank(value.value) && setItemThrows ==>
        && host.record == old(host.record)
        && clipboardValues == old(clipboardValues)
        && host.toasts == old(host.toasts) + [SaveFailedToast]
      ensures old(InSync()) ==> InSync()
    {
      if value.None? || IsBlank(value.value) {
        return;
      }
      isLoading := true;
      var success := SaveClipboardValue(value.value, setItemThrows);
      if success {
        LoadClipboardValues();
      }
      isLoading := false;
      closeModalCalls := closeModalCalls + 1;
    }
  }
}
