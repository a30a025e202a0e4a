/** The settings screen: a working copy of the settings edited one field at a time and saved
    as a whole through the provider. */
module SystemSettingsScreen {
  import opened Settings

  /** `handleChange(key, value)` on the working copy: that key set, every other kept. */
  function WithField(form: SettingsMap, key: Key, value: Value): (r: SettingsMap)
    ensures key in r && r[key] == value
    ensures forall k :: k != key ==> (k in r <==> k in form) && (k in form ==> r[k] == form[k])
  {
    form[key := value]
  }

  /** A single-field change is a merge with a one-entry patch, so it inherits the merge's
      idempotence: repeating the same change changes nothing more. */
  lemma WithFieldIsMerge(form: SettingsMap, key: Key, value: Value)
    ensures WithField(form, key, value) == Merge(form, map[key := value])
    ensures WithField(WithField(form, key, value), key, value) == WithField(form, key, value)
  {
    MergeIdempotent(form, map[key := value]);
  }

  /** Saving the working copy of a settings object with every key makes the provider's
      settings exactly that copy. */
  lemma SaveReplacesSettings(settings: SettingsMap, form: SettingsMap)
    requires settings.Keys <= AllKeys && form.Keys == AllKeys
    ensures Merge(settings, form) == form
  {
    MergeFull(settings, form);
  }

  /** The screen's state, over the provider it saves through. */
  class SystemSettingsPage {
    const provider: SettingsProvider
    var formData: SettingsMap
    var activeTab: string
    var isSaving: bool
    /** Whether the "settings saved" notice has been shown. */
    var noticeShown: bool

    /** The working copy starts as the provider's settings. */
    constructor (provider: SettingsProvider)
      ensures this.provider == provider && formData == provider.settings
      ensures activeTab == "general" && !isSaving && !noticeShown
    {
      this.provider := provider;
      formData := provider.settings;
      activeTab := "general";
      isSaving := false;
      noticeShown := false;
    }

    /** `handleChange`. */
    method HandleChange(key: Key, value: Value)
      modifies this`formData
      ensures formData == WithField(old(formData), key, value)
    {
      formData := formData[key := value];
    }

    /** `saveSettings`: the whole working copy goes to `updateSettings`; the notice appears
        only on success; `isSaving` is false afterwards whatever happened. */
    method SaveSettings(writeSucceeds: bool)
      modifies this`isSaving, this`noticeShown, provider`settings, provider`stored
      ensures provider.settings == (if writeSucceeds then Merge(old(provider.settings), formData) else old(provider.settings))
      ensures writeSucceeds ==> provider.stored == Saved(provider.settings)
      ensures !writeSucceeds ==> provider.stored == old(provider.stored)
      ensures noticeShown == (writeSucceeds || old(noticeShown))
      ensures !isSaving
    {
      isSaving := true;
      var success := provider.UpdateSettings(formData, writeSucceeds);
      if success {
        noticeShown := true;
      }
      isSaving := false;
    }
  }
}
