/**
 * The API-key part of the mobile settings screen (mobile/app/settings.tsx):
 * the key typed in, whether one is stored, the "saved" tick, and the alert
 * shown, over the secure store the AI service reads its key from.
 */
module Settings {
  import opened Wrappers
  import opened Text
  import KeyValue
  import MobileBookService

  /** The same key the AI service reads. */
  const ApiKeyStorageKey: string := MobileBookService.ApiKeyStorageKey

  const EnterKeyAlert: string := "Please enter an API key"
  const SaveFailedAlert: string := "Failed to save API key"

  class Screen {
    var apiKey: string
    var hasExistingKey: bool
    var isSaved: bool
    /** The alert on screen, if any. */
    var alert: Option<string>
    const storage: KeyValue.Store

    constructor(storage: KeyValue.Store)
      ensures apiKey == "" && !hasExistingKey && !isSaved && alert.None? && this.storage == storage
    {
      this.storage := storage;
      apiKey := "";
      hasExistingKey := false;
      isSaved := false;
      alert := None;
    }

    /** The delete button is shown exactly when a key is stored. */
    predicate ShowsDeleteButton()
      reads this
    {
      hasExistingKey
    }

    method OnChangeText(text: string)
      modifies this
      ensures apiKey == text
      ensures hasExistingKey == old(hasExistingKey) && isSaved == old(isSaved) && alert == old(alert)
    {
      apiKey := text;
    }

    /** `loadApiKey`: only a stored non-empty key fills the input and marks a key as stored. */
    method LoadApiKey(readFails: bool)
      modifies this
      ensures var stored := if readFails then None else storage.GetItem(ApiKeyStorageKey);
        && (Present(stored) ==> apiKey == stored.value && hasExistingKey)
        && (!Present(stored) ==> apiKey == old(apiKey) && hasExistingKey == old(hasExistingKey))
      ensures isSaved == old(isSaved) && alert == old(alert)
    {
      if readFails {
        return;
      }
      var savedKey := storage.GetItem(ApiKeyStorageKey);
      if savedKey.Some? && savedKey.value != "" {
        apiKey := savedKey.value;
        hasExistingKey := true;
      }
    }

    /**
     * `saveApiKey`: a blank key is refused with an alert and nothing stored;
     * otherwise the trimmed key is stored and the tick shown, or, when the
     * write fails, the failure alert.
     */
    method SaveApiKey(writeFails: bool)
      modifies this, storage
      ensures apiKey == old(apiKey)
      ensures Trim(apiKey) == "" ==>
        alert == Some(EnterKeyAlert) && storage.items == old(storage.items)
        && hasExistingKey == old(hasExistingKey) && isSaved == old(isSaved)
      ensures Trim(apiKey) != "" && !writeFails ==>
        storage.items == old(storage.items)[ApiKeyStorageKey := Trim(apiKey)]
        && hasExistingKey && isSaved && alert == old(alert)
      ensures Trim(apiKey) != "" && writeFails ==>
        alert == Some(SaveFailedAlert) && storage.items == old(storage.items)
        && hasExistingKey == old(hasExistingKey) && isSaved == old(isSaved)
    {
      if Trim(apiKey) == "" {
        alert := Some(EnterKeyAlert);
        return;
      }
      var ok := storage.SetItem(ApiKeyStorageKey, Trim(apiKey), writeFails);
      if ok {
        isSaved := true;
        hasExistingKey := true;
      } else {
        alert := Some(SaveFailedAlert);
      }
    }

    /** The two-second timer after a save hides the tick. */
    method SavedTickExpires()
      modifies this
      ensures !isSaved
      ensures apiKey == old(apiKey) && hasExistingKey == old(hasExistingKey) && alert == old(alert)
    {
      isSaved := false;
    }

    /** The confirmed branch of `deleteApiKey`; a failed delete changes nothing. */
    method ConfirmDelete(deleteFails: bool)
      modifies this, storage
      ensures !deleteFails ==> ApiKeyStorageKey !in storage.items && apiKey == "" && !hasExistingKey
      ensures !deleteFails ==> storage.items == old(storage.items) - {ApiKeyStorageKey}
      ensures deleteFails ==> storage.items == old(storage.items) && apiKey == old(apiKey) && hasExistingKey == old(hasExistingKey)
      ensures isSaved == old(isSaved) && alert == old(alert)
    {
      var ok := storage.DeleteItem(ApiKeyStorageKey, deleteFails);
      if ok {
        apiKey := "";
        hasExistingKey := false;
      }
    }
  }

  /** A key saved here is the key the AI service then reads, with its padding trimmed. */
  method SavedKeyIsUsed(screen: Screen)
    requires Trim(screen.apiKey) != ""
    modifies screen, screen.storage
    ensures MobileBookService.GetApiKey(screen.storage, false) == Some(Trim(screen.apiKey))
    ensures Present(MobileBookService.GetApiKey(screen.storage, false))
  {
    screen.SaveApiKey(false);
  }

  /** After a confirmed delete the AI service finds no key. */
  method DeletedKeyIsGone(screen: Screen)
    modifies screen, screen.storage
    ensures MobileBookService.GetApiKey(screen.storage, false).None? && !screen.ShowsDeleteButton()
  {
    screen.ConfirmDelete(false);
  }
}
