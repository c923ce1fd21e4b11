/**
 * The browser's `sessionStorage` as the onboarding views use it: string keys
 * and values, written best-effort. When storage is unavailable every access
 * throws, and every caller swallows that in an empty `catch`, so an
 * unavailable store simply ignores reads and writes.
 */
module Session {
  import opened Wrappers

  const PendingVerificationKey := "pendingVerification"
  const PendingUsernameKey := "pendingUsername"
  const UserEmailKey := "userEmail"

  /** The two entries written when a view switches to code entry for `username`. */
  function PendingEntries(username: string): (m: map<string, string>)
    ensures m.Keys == {PendingVerificationKey, PendingUsernameKey}
    ensures m[PendingVerificationKey] == "true" && m[PendingUsernameKey] == username
  {
    map[PendingVerificationKey := "true", PendingUsernameKey := username]
  }

  /**
   * The mount-time restore of both forms: the stored username, when the
   * pending flag reads exactly "true" and the username is non-empty.
   */
  function RestoredUsername(items: map<string, string>, available: bool): (r: Option<string>)
    ensures r.Some? <==> available && PendingVerificationKey in items && items[PendingVerificationKey] == "true"
                         && PendingUsernameKey in items && items[PendingUsernameKey] != ""
    ensures r.Some? ==> r.value == items[PendingUsernameKey]
  {
    if available && PendingVerificationKey in items && items[PendingVerificationKey] == "true"
       && PendingUsernameKey in items && items[PendingUsernameKey] != ""
    then Some(items[PendingUsernameKey])
    else None
  }

  /** What a write of `entries` leaves in the store. */
  function Written(items: map<string, string>, available: bool, entries: map<string, string>): (r: map<string, string>)
    ensures available ==> r.Keys == items.Keys + entries.Keys
    ensures available ==> forall k :: k in entries ==> r[k] == entries[k]
    ensures available ==> forall k :: k in items && k !in entries ==> r[k] == items[k]
    ensures !available ==> r == items
  {
    if available then items + entries else items
  }

  /** A restore right after the pending entries were written finds the username again. */
  lemma RestoreAfterWrite(items: map<string, string>, username: string)
    requires username != ""
    ensures RestoredUsername(Written(items, true, PendingEntries(username)), true) == Some(username)
  {
  }

  /** With storage unavailable nothing is ever restored. */
  lemma NoRestoreWithoutStorage(items: map<string, string>)
    ensures RestoredUsername(items, false) == None
  {
  }

  /** Removing the pending entries makes the restore find nothing. */
  lemma NoRestoreAfterRemoval(items: map<string, string>)
    ensures RestoredUsername(items - {PendingVerificationKey, PendingUsernameKey}, true) == None
  {
  }

  class Store {
    var items: map<string, string>
    var available: bool

    constructor (available: bool)
      ensures items == map[] && this.available == available
    {
      items := map[];
      this.available := available;
    }

    /** `setItem` for several keys in one `try` block. */
    method SetItems(entries: map<string, string>)
      modifies this
      ensures available == old(available)
      ensures items == Written(old(items), available, entries)
    {
      if available {
        items := items + entries;
      }
    }

    /** `removeItem` for several keys in one `try` block. */
    method RemoveItems(keys: set<string>)
      modifies this
      ensures available == old(available)
      ensures items == if available then old(items) - keys else old(items)
    {
      if available {
        items := items - keys;
      }
    }
  }
}
