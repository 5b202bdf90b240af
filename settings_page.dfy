/**
 * `toggleSetting` of `app/settings/page.tsx`: flip one switch, keep the two
 * scan switches exclusive and `scanMode` in step with them, save, and notify
 * with a label derived from the camelCase key.
 */
module SettingsPage {
  import opened Text
  import opened ThreatDetector
  import opened Storage

  /** The keys the page's four switches toggle. */
  datatype SettingKey = AutoScan | EnableNotifications | QuickScan | DeepScan

  function KeyName(key: SettingKey): string
  {
    match key
    case AutoScan => "autoScan"
    case EnableNotifications => "enableNotifications"
    case QuickScan => "quickScan"
    case DeepScan => "deepScan"
  }

  /** `settings[key]`. */
  function Value(s: Settings, key: SettingKey): bool
  {
    match key
    case AutoScan => s.autoScan
    case EnableNotifications => s.enableNotifications
    case QuickScan => s.quickScan
    case DeepScan => s.deepScan
  }

  /** Exactly one scan switch is on and `scanMode` names it. */
  predicate ScanConsistent(s: Settings)
  {
    s.quickScan != s.deepScan && s.scanMode == (if s.deepScan then Deep else Quick)
  }

  /** The new settings record: `{ ...settings, [key]: !settings[key] }`, then the scan fix-ups. */
  function Toggle(s: Settings, key: SettingKey): (r: Settings)
    ensures Value(r, key) == !Value(s, key)
    ensures r.autoScan == (if key == AutoScan then !s.autoScan else s.autoScan)
    ensures r.enableNotifications == (if key == EnableNotifications then !s.enableNotifications else s.enableNotifications)
    ensures key == AutoScan || key == EnableNotifications ==>
      r.quickScan == s.quickScan && r.deepScan == s.deepScan && r.scanMode == s.scanMode
    ensures key == QuickScan ==> r.deepScan == !r.quickScan && r.scanMode == (if r.quickScan then Quick else Deep)
    ensures key == DeepScan ==> r.quickScan == !r.deepScan && r.scanMode == (if r.deepScan then Deep else Quick)
    ensures key == QuickScan || key == DeepScan || ScanConsistent(s) ==> ScanConsistent(r)
  {
    var flipped := match key
      case AutoScan => s.(autoScan := !s.autoScan)
      case EnableNotifications => s.(enableNotifications := !s.enableNotifications)
      case QuickScan => s.(quickScan := !s.quickScan)
      case DeepScan => s.(deepScan := !s.deepScan);
    if key == QuickScan then
      flipped.(deepScan := !flipped.quickScan, scanMode := if flipped.quickScan then Quick else Deep)
    else if key == DeepScan then
      flipped.(quickScan := !flipped.deepScan, scanMode := if flipped.deepScan then Deep else Quick)
    else flipped
  }

  /** From consistent settings, toggling the same switch twice restores them. */
  lemma ToggleTwice(s: Settings, key: SettingKey)
    requires ScanConsistent(s)
    ensures Toggle(Toggle(s, key), key) == s
  {
  }

  /** `.replace(/([A-Z])/g, " $1")`: a space before every capital. */
  function SpaceBeforeCapitals(s: string): (r: string)
    ensures |r| >= |s|
  {
    if s == [] then []
    else (if IsUpper(s[0]) then [' ', s[0]] else [s[0]]) + SpaceBeforeCapitals(s[1..])
  }

  /** The notification's feature name: `key.replace(...).trim().toLowerCase()`. */
  function FeatureLabel(key: string): string
  {
    Lower(Trim(SpaceBeforeCapitals(key)))
  }

  /** `s` with every space removed. */
  function WithoutSpaces(s: string): string
  {
    if s == [] then [] else (if s[0] == ' ' then [] else [s[0]]) + WithoutSpaces(s[1..])
  }

  lemma {:induction false} WithoutSpacesConcat(a: string, b: string)
    ensures WithoutSpaces(a + b) == WithoutSpaces(a) + WithoutSpaces(b)
  {
    if a == [] {
      assert a + b == b;
    } else {
      assert (a + b)[1..] == a[1..] + b;
      WithoutSpacesConcat(a[1..], b);
    }
  }

  lemma {:induction false} SpacesOnlyAdded(s: string)
    requires ' ' !in s
    ensures WithoutSpaces(SpaceBeforeCapitals(s)) == s
  {
    if s != [] {
      SpacesOnlyAdded(s[1..]);
      var head := if IsUpper(s[0]) then [' ', s[0]] else [s[0]];
      WithoutSpacesConcat(head, SpaceBeforeCapitals(s[1..]));
      assert s == [s[0]] + s[1..];
    }
  }

  /** The only whitespace the spacing step can introduce is the spaces themselves. */
  lemma {:induction false} SpacingOnlySpaces(s: string)
    requires forall i :: 0 <= i < |s| ==> !IsWhitespace(s[i])
    ensures OnlySpaces(SpaceBeforeCapitals(s))
  {
    if s != [] {
      SpacingOnlySpaces(s[1..]);
      var head := if IsUpper(s[0]) then [' ', s[0]] else [s[0]];
      var rest := SpaceBeforeCapitals(s[1..]);
      var r := head + rest;
      forall i | 0 <= i < |r| && IsWhitespace(r[i])
        ensures r[i] == ' '
      {
        if i >= |head| {
          assert r[i] == rest[i - |head|];
        }
      }
    }
  }

  /** Every whitespace character of `s` is a plain space. */
  predicate OnlySpaces(s: string)
  {
    forall i :: 0 <= i < |s| && IsWhitespace(s[i]) ==> s[i] == ' '
  }

  /** Trimming whitespace that is all spaces leaves the other characters as they were. */
  lemma TrimKeepsNonSpaces(s: string)
    requires OnlySpaces(s)
    ensures WithoutSpaces(Trim(s)) == WithoutSpaces(s)
  {
    TrimStartKeepsNonSpaces(s);
    TrimEndKeepsNonSpaces(TrimStart(s));
  }

  lemma {:induction false} TrimStartKeepsNonSpaces(s: string)
    requires OnlySpaces(s)
    ensures OnlySpaces(TrimStart(s))
    ensures WithoutSpaces(TrimStart(s)) == WithoutSpaces(s)
  {
    if s != [] && IsWhitespace(s[0]) {
      assert s[0] == ' ';
      var tail := s[1..];
      assert OnlySpaces(tail) by {
        forall i | 0 <= i < |tail| && IsWhitespace(tail[i])
          ensures tail[i] == ' '
        {
          assert tail[i] == s[i + 1];
        }
      }
      TrimStartKeepsNonSpaces(tail);
    }
  }

  lemma {:induction false} TrimEndKeepsNonSpaces(s: string)
    requires OnlySpaces(s)
    ensures WithoutSpaces(TrimEnd(s)) == WithoutSpaces(s)
  {
    if s != [] && IsWhitespace(s[|s| - 1]) {
      var init := s[..|s| - 1];
      assert s == init + [' '];
      assert OnlySpaces(init) by {
        forall i | 0 <= i < |init| && IsWhitespace(init[i])
          ensures init[i] == ' '
        {
          assert init[i] == s[i];
        }
      }
      TrimEndKeepsNonSpaces(init);
      WithoutSpacesConcat(init, [' ']);
    }
  }

  lemma {:induction false} WithoutSpacesLower(s: string)
    ensures WithoutSpaces(Lower(s)) == Lower(WithoutSpaces(s))
  {
    if s != [] {
      assert Lower(s) == [LowerChar(s[0])] + Lower(s[1..]);
      WithoutSpacesLower(s[1..]);
      assert WithoutSpaces(s) == (if s[0] == ' ' then [] else [s[0]]) + WithoutSpaces(s[1..]);
      assert Lower((if s[0] == ' ' then [] else [s[0]]) + WithoutSpaces(s[1..])) ==
        (if s[0] == ' ' then [] else [LowerChar(s[0])]) + Lower(WithoutSpaces(s[1..]));
    }
  }

  /**
   * The label is the key in lower case with spaces inserted only: taking the
   * spaces out again gives back the lower-cased key, and it has no capitals.
   */
  lemma FeatureLabelWords(key: string)
    requires forall i :: 0 <= i < |key| ==> !IsWhitespace(key[i])
    ensures WithoutSpaces(FeatureLabel(key)) == Lower(key)
    ensures forall i :: 0 <= i < |FeatureLabel(key)| ==> !IsUpper(FeatureLabel(key)[i])
  {
    var spaced := SpaceBeforeCapitals(key);
    SpacesOnlyAdded(key);
    SpacingOnlySpaces(key);
    TrimKeepsNonSpaces(spaced);
    WithoutSpacesLower(Trim(spaced));
  }

  lemma {:induction false} SpacingConcat(a: string, b: string)
    ensures SpaceBeforeCapitals(a + b) == SpaceBeforeCapitals(a) + SpaceBeforeCapitals(b)
  {
    if a == [] {
      assert a + b == b;
    } else {
      assert (a + b)[1..] == a[1..] + b;
      SpacingConcat(a[1..], b);
    }
  }

  /** Text without capitals is left as it is. */
  lemma {:induction false} SpacingWithoutCapitals(s: string)
    requires forall i :: 0 <= i < |s| ==> !IsUpper(s[i])
    ensures SpaceBeforeCapitals(s) == s
  {
    if s != [] {
      SpacingWithoutCapitals(s[1..]);
      assert [s[0]] + s[1..] == s;
    }
  }

  /** One capital between two runs of non-capitals gets exactly one space in front of it. */
  lemma SpacingOneCapital(a: string, c: char, b: string)
    requires forall i :: 0 <= i < |a| ==> !IsUpper(a[i])
    requires forall i :: 0 <= i < |b| ==> !IsUpper(b[i])
    requires IsUpper(c)
    ensures SpaceBeforeCapitals(a + [c] + b) == a + [' ', c] + b
  {
    var single: string := [c];
    assert SpaceBeforeCapitals(single) == [' ', c] by {
      assert single[0] == c && single[1..] == [];
      assert SpaceBeforeCapitals(single[1..]) == [];
    }
    SpacingConcat(a + single, b);
    SpacingConcat(a, single);
    SpacingWithoutCapitals(a);
    SpacingWithoutCapitals(b);
  }

  // The concrete key below reaches these lemmas as a parameter pinned by `requires`
  // rather than as a literal: that keeps the solver from unfolding the recursive
  // string functions on the literal, which runs out of resource.

  /** Spacing `enableNotifications` puts one space before its only capital. */
  lemma SpacedNotificationsKey(key: string)
    requires key == "enableNotifications"
    ensures SpaceBeforeCapitals(key) == "enable Notifications"
  {
    var a, b := key[..6], key[7..];
    assert key == a + [key[6]] + b;
    SpacingOneCapital(a, key[6], b);
  }

  /** Lower-casing the spaced key. */
  lemma LowerSpacedNotifications(spaced: string)
    requires spaced == "enable Notifications"
    ensures Lower(spaced) == "enable notifications"
  {
    var lower := Lower(spaced);
    assert forall i :: 0 <= i < 20 ==> lower[i] == "enable notifications"[i];
  }

  /** `enableNotifications` is announced as `enable notifications`. */
  lemma EnableNotificationsLabel(key: string)
    requires key == KeyName(EnableNotifications)
    ensures FeatureLabel(key) == "enable notifications"
  {
    SpacedNotificationsKey(key);
    var spaced := SpaceBeforeCapitals(key);
    assert Trim(spaced) == spaced by {
      assert !IsWhitespace(spaced[0]) && !IsWhitespace(spaced[|spaced| - 1]);
    }
    LowerSpacedNotifications(spaced);
  }

  /** The notification text: the feature, then `enabled` exactly when the switch is now on. */
  function Message(feature: string, on: bool): (m: string)
    ensures on <==> m == feature + " enabled"
    ensures !on <==> m == feature + " disabled"
  {
    feature + " " + (if on then "enabled" else "disabled")
  }

  datatype Notification = NoNotification | Shown(message: string, kind: string)

  /** The settings page's state: the `settings` and `notification` hooks, over the store. */
  class SettingsScreen {
    var settings: Settings
    var notification: Notification
    var isLoaded: bool
    const storage: StorageManager

    /** `useState(StorageManager.getSettings())`, `useState(null)`, `useState(false)`. */
    constructor (storage: StorageManager)
      ensures this.storage == storage
      ensures settings == storage.CurrentSettings() && notification == NoNotification && !isLoaded
    {
      var initial := storage.GetSettings();
      this.storage := storage;
      settings := initial;
      notification := NoNotification;
      isLoaded := false;
    }

    /** The mount effect: read the settings again and mark the page loaded. */
    method Load()
      modifies this
      ensures settings == storage.CurrentSettings() && isLoaded
      ensures notification == old(notification)
    {
      var loaded := storage.GetSettings();
      settings := loaded;
      isLoaded := true;
    }

    method ToggleSetting(key: SettingKey)
      modifies this, storage
      ensures settings == Toggle(old(settings), key)
      ensures storage.items ==
        if storage.hasWindow then old(storage.items)[SettingsKey := SettingsItem(settings)] else old(storage.items)
      ensures storage.hasWindow ==> storage.CurrentSettings() == settings
      ensures notification == Shown(Message(FeatureLabel(KeyName(key)), Value(settings, key)), "success")
      ensures isLoaded == old(isLoaded)
    {
      var newSettings := match key
        case AutoScan => settings.(autoScan := !settings.autoScan)
        case EnableNotifications => settings.(enableNotifications := !settings.enableNotifications)
        case QuickScan => settings.(quickScan := !settings.quickScan)
        case DeepScan => settings.(deepScan := !settings.deepScan);

      if key == QuickScan {
        newSettings := newSettings.(deepScan := !newSettings.quickScan);
        newSettings := newSettings.(scanMode := if newSettings.quickScan then Quick else Deep);
      } else if key == DeepScan {
        newSettings := newSettings.(quickScan := !newSettings.deepScan);
        newSettings := newSettings.(scanMode := if newSettings.deepScan then Deep else Quick);
      }

      settings := newSettings;
      storage.SaveSettings(newSettings);

      notification := Shown(Message(FeatureLabel(KeyName(key)), Value(newSettings, key)), "success");
    }
  }
}
