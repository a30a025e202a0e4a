/** The site settings provider: fifteen named settings, their defaults, loading them from
    the browser's storage, and updating them by merging a partial record. */
module Settings {

  datatype Key =
    | SiteName | SiteDescription | ContactEmail | SupportPhone
    | Currency | Locale | Timezone
    | EmailNotifications | SmsNotifications | NotifyOnNewBooking | NotifyOnCancellation
    | PrimaryColor | SecondaryColor | Logo | Favicon

  /** A setting's value: the text fields and the switches. */
  datatype Value = Text(s: string) | Flag(b: bool)

  /** A settings object: a record keyed by setting name. A parsed stored object may lack
      keys, so the map need not be total. */
  type SettingsMap = map<Key, Value>

  const AllKeys: set<Key> := {
    SiteName, SiteDescription, ContactEmail, SupportPhone, Currency, Locale, Timezone,
    EmailNotifications, SmsNotifications, NotifyOnNewBooking, NotifyOnCancellation,
    PrimaryColor, SecondaryColor, Logo, Favicon }

  /** Every setting name is one of the fifteen. */
  lemma AllKeysComplete(k: Key)
    ensures k in AllKeys
  {
    match k
    case SiteName =>
    case SiteDescription =>
    case ContactEmail =>
    case SupportPhone =>
    case Currency =>
    case Locale =>
    case Timezone =>
    case EmailNotifications =>
    case SmsNotifications =>
    case NotifyOnNewBooking =>
    case NotifyOnCancellation =>
    case PrimaryColor =>
    case SecondaryColor =>
    case Logo =>
    case Favicon =>
  }

  /** The defaults give every setting a value. */
  function DefaultSettings(): (d: SettingsMap)
    ensures d.Keys == AllKeys
  {
    map[
      SiteName := Text("АвтоПрокат"),
      SiteDescription := Text("Сервис аренды автомобилей"),
      ContactEmail := Text("info@autopro.ru"),
      SupportPhone := Text("+7 (800) 555-35-35"),
      Currency := Text("₽"),
      Locale := Text("ru-RU"),
      Timezone := Text("Europe/Moscow"),
      EmailNotifications := Flag(true),
      SmsNotifications := Flag(false),
      NotifyOnNewBooking := Flag(true),
      NotifyOnCancellation := Flag(true),
      PrimaryColor := Text("#3b82f6"),
      SecondaryColor := Text("#6366f1"),
      Logo := Text("/logo.svg"),
      Favicon := Text("/favicon.ico")
    ]
  }

  /** `{ ...settings, ...patch }`: every key of the patch overwritten, every other key kept. */
  function Merge(settings: SettingsMap, patch: SettingsMap): (r: SettingsMap)
    ensures r.Keys == settings.Keys + patch.Keys
    ensures forall k :: k in patch ==> r[k] == patch[k]
    ensures forall k :: k in settings && k !in patch ==> r[k] == settings[k]
  {
    settings + patch
  }

  /** Applying a patch twice is applying it once. */
  lemma MergeIdempotent(settings: SettingsMap, patch: SettingsMap)
    ensures Merge(Merge(settings, patch), patch) == Merge(settings, patch)
  {
  }

  /** An empty patch changes nothing. */
  lemma MergeEmpty(settings: SettingsMap)
    ensures Merge(settings, map[]) == settings
  {
  }

  /** A patch holding every key replaces the settings outright. */
  lemma MergeFull(settings: SettingsMap, patch: SettingsMap)
    requires settings.Keys <= patch.Keys
    ensures Merge(settings, patch) == patch
  {
  }

  /** What storage holds under the settings key: nothing, an object JSON.parse reads back,
      or text it rejects. */
  datatype Stored = Absent | Saved(settings: SettingsMap) | Unparsable

  /** `loadSettings`: a stored object replaces the settings; nothing stored, or text that
      does not parse, keeps them. */
  function Loaded(current: SettingsMap, stored: Stored): (r: SettingsMap)
    ensures stored.Saved? ==> r == stored.settings
    ensures !stored.Saved? ==> r == current
  {
    match stored
    case Saved(s) => s
    case _ => current
  }

  /** The provider's state; `stored` is the storage entry the provider owns. */
  class SettingsProvider {
    var settings: SettingsMap
    var loading: bool
    var stored: Stored

    /** As first rendered: the defaults, loading, storage as earlier visits left it. */
    constructor (stored: Stored)
      ensures settings == DefaultSettings() && loading && this.stored == stored
    {
      settings := DefaultSettings();
      loading := true;
      this.stored := stored;
    }

    /** `loadSettings`. */
    method LoadSettings()
      modifies this`settings, this`loading
      ensures settings == Loaded(old(settings), stored) && !loading
    {
      loading := true;
      match stored {
        case Saved(s) =>
          settings := s;
        case Absent =>
        case Unparsable =>
      }
      loading := false;
    }

    /** `updateSettings(patch)`: the merged settings are written to storage, then become the
        state, and true is returned. A storage write that throws leaves both unchanged and
        returns false. */
    method UpdateSettings(patch: SettingsMap, writeSucceeds: bool) returns (ok: bool)
      modifies this`settings, this`stored
      ensures ok == writeSucceeds
      ensures ok ==> settings == Merge(old(settings), patch) && stored == Saved(settings)
      ensures !ok ==> settings == old(settings) && stored == old(stored)
    {
      var updated := Merge(settings, patch);
      if !writeSucceeds {
        return false;
      }
      stored := Saved(updated);
      settings := updated;
      ok := true;
    }
  }
}
