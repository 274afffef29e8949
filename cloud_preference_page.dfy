/**
 * The collaboration preference page (`CloudPreferencePage`): four check
 * boxes, of which the first enables the other three and the table of server
 * configurations; a list of configurations edited in place (append, remove
 * the selected ones, at most one default); the column texts of that table,
 * with the password masked; and `performOk`, which writes the check boxes
 * under their preference keys and hands the list to the configuration store.
 */
module CloudPreferences {
  import opened Wrappers

  /** A server configuration; its string fields are nullable, as in Java. */
  class CloudConfiguration {
    var url: Option<string>
    var user: Option<string>
    var password: Option<string>
    var isDefault: bool

    /** `new CloudConfiguration()`: Java's field defaults. */
    constructor ()
      ensures url.None? && user.None? && password.None? && !isDefault
    {
      url, user, password, isDefault := None, None, None, false;
    }
  }

  /** The keys `performOk` writes (`CloudPreference.ENABLE` and so on). */
  datatype PreferenceKey = Enable | CheckAgainstLibraries | CheckReferences | DisplayComments

  /** The echo character U+2022 (8226). */
  const Bullet: char := '\U{2022}'

  /**
   * A boolean preference as the `CloudPreference.do...` getters read it: the
   * stored value, and false for a key that was never written (`CloudPreference`
   * is not part of this model; this is the preference store's default).
   */
  function StoredValue(store: map<PreferenceKey, bool>, key: PreferenceKey): (r: bool)
  {
    key in store && store[key]
  }

  /** The characters that the regular expression `.` does not match. */
  predicate IsLineTerminator(c: char)
  {
    c == '\n' || c == '\r' || c == '\U{0085}' || c == '\U{2028}' || c == '\U{2029}'
  }

  /** `password.replaceAll(".", echoChar)`. */
  function Mask(password: string): (r: string)
    ensures |r| == |password|
    ensures forall i :: 0 <= i < |r| ==> if IsLineTerminator(password[i]) then r[i] == password[i] else r[i] == Bullet
  {
    if password == [] then []
    else [if IsLineTerminator(password[0]) then password[0] else Bullet] + Mask(password[1..])
  }

  /** Same length, and a line terminator in either at a place means both agree there. */
  predicate SameLayout(p: string, q: string)
  {
    |p| == |q| && forall i :: 0 <= i < |p| ==> (IsLineTerminator(p[i]) || IsLineTerminator(q[i]) ==> p[i] == q[i])
  }

  /**
   * The mask gives away nothing but the length and where the line terminators
   * are: two passwords have the same mask exactly when they agree on both.
   */
  lemma MaskRevealsOnlyLayout(p: string, q: string)
    ensures Mask(p) == Mask(q) <==> SameLayout(p, q)
  {
    if Mask(p) == Mask(q) {
      SameMaskSameLayout(p, q);
    }
    if SameLayout(p, q) {
      SameLayoutSameMask(p, q);
    }
  }

  lemma SameMaskSameLayout(p: string, q: string)
    requires Mask(p) == Mask(q)
    ensures SameLayout(p, q)
  {
    var mp, mq := Mask(p), Mask(q);
    forall i | 0 <= i < |p| && (IsLineTerminator(p[i]) || IsLineTerminator(q[i]))
      ensures p[i] == q[i]
    {
      assert mp[i] == mq[i];
    }
  }

  lemma SameLayoutSameMask(p: string, q: string)
    requires SameLayout(p, q)
    ensures Mask(p) == Mask(q)
  {
    var mp, mq := Mask(p), Mask(q);
    forall i | 0 <= i < |p|
      ensures mp[i] == mq[i]
    {
      if IsLineTerminator(p[i]) || IsLineTerminator(q[i]) {
        assert p[i] == q[i];
      }
    }
  }

  /** The text of a table cell, or the exception computing it throws. */
  datatype CellText = Text(text: Option<string>) | NullPointerException

  /**
   * `getColumnText`: the url in column 0, the user in column 1, the masked
   * password in column 2 (a null password makes `replaceAll` throw), null
   * in every other column.
   */
  function ColumnText(config: CloudConfiguration, column: int): (r: CellText)
    reads config
    ensures column == 0 ==> r == Text(config.url)
    ensures column == 1 ==> r == Text(config.user)
    ensures column == 2 && config.password.None? ==> r.NullPointerException?
    ensures column == 2 && config.password.Some? ==> r == Text(Some(Mask(config.password.value)))
    ensures column !in {0, 1, 2} ==> r == Text(None)
  {
    if column == 0 then Text(config.url)
    else if column == 1 then Text(config.user)
    else if column == 2 then
      match config.password
      case None => NullPointerException
      case Some(p) => Text(Some(Mask(p)))
    else Text(None)
  }

  /**
   * `getColumnImage`: only column 3 has an image, the check mark that shows
   * whether the configuration is the default (`Some(isDefault)`).
   */
  function ColumnImage(config: CloudConfiguration, column: int): (r: Option<bool>)
    reads config
    ensures r.Some? <==> column == 3
    ensures r.Some? ==> r.value == config.isDefault
  {
    if column != 3 then None else Some(config.isDefault)
  }

  /** `list.remove(x)`: the first element equal to `x` is removed, if any. */
  /** The position of the first element equal to `x`. */
  function FirstIndex<T(==)>(s: seq<T>, x: T): (k: nat)
    requires x in s
    ensures k < |s| && s[k] == x
    ensures forall j :: 0 <= j < k ==> s[j] != x
  {
    if s[0] == x then 0 else FirstIndex(s[1..], x) + 1
  }

  function RemoveFirst<T(==)>(s: seq<T>, x: T): (r: seq<T>)
    ensures x in s ==> |r| == |s| - 1
    ensures x !in s ==> r == s
  {
    if s == [] then []
    else if s[0] == x then s[1..]
    else [s[0]] + RemoveFirst(s[1..], x)
  }

  /** `remove` takes out the first element equal to `x`, and nothing else moves. */
  lemma {:induction false} RemoveFirstAtFirstIndex<T>(s: seq<T>, x: T)
    requires x in s
    ensures RemoveFirst(s, x) == s[..FirstIndex(s, x)] + s[FirstIndex(s, x) + 1..]
  {
    if s[0] != x {
      var t := s[1..];
      RemoveFirstAtFirstIndex(t, x);
      ConsOfSplit(s, FirstIndex(t, x));
    }
  }

  /** Putting the head back in front of a tail with one position removed. */
  lemma ConsOfSplit<T>(s: seq<T>, k: nat)
    requires k + 1 < |s|
    ensures [s[0]] + (s[1..][..k] + s[1..][k + 1..]) == s[..k + 1] + s[k + 2..]
  {
    assert s[..k + 1] == [s[0]] + s[1..][..k];
  }

  /** One `remove` per selected element, in the order of the selection. */
  function RemoveEach<T(==)>(s: seq<T>, selected: seq<T>): (r: seq<T>)
    ensures |s| - |selected| <= |r| <= |s|
  {
    if selected == [] then s
    else RemoveFirst(RemoveEach(s, selected[..|selected| - 1]), selected[|selected| - 1])
  }

  /** The elements of `s` that lie in `keep`, in their order in `s`. */
  function Only<T>(s: seq<T>, keep: set<T>): (r: seq<T>)
  {
    if s == [] then [] else (if s[0] in keep then [s[0]] else []) + Only(s[1..], keep)
  }

  predicate NoDuplicates<T(==)>(s: seq<T>)
  {
    forall i, j :: 0 <= i < j < |s| ==> s[i] != s[j]
  }

  /** Removing an element outside `keep` leaves the elements of `keep` in their order. */
  lemma {:induction false} RemoveFirstKeepsOrder<T>(s: seq<T>, x: T, keep: set<T>)
    requires x !in keep
    ensures Only(RemoveFirst(s, x), keep) == Only(s, keep)
  {
    if s != [] && s[0] != x {
      RemoveFirstKeepsOrder(s[1..], x, keep);
      var r := [s[0]] + RemoveFirst(s[1..], x);
      assert r[0] == s[0] && r[1..] == RemoveFirst(s[1..], x);
    }
  }

  /**
   * `onRemove`: the configurations that were not selected stay, in their
   * relative order.
   */
  lemma {:induction false} RemoveEachKeepsOrder<T>(s: seq<T>, selected: seq<T>, keep: set<T>)
    requires forall x :: x in selected ==> x !in keep
    ensures Only(RemoveEach(s, selected), keep) == Only(s, keep)
  {
    if selected != [] {
      var init := selected[..|selected| - 1];
      RemoveEachKeepsOrder(s, init, keep);
      RemoveFirstKeepsOrder(RemoveEach(s, init), selected[|selected| - 1], keep);
    }
  }

  /** In a list without duplicates, `remove` takes out exactly that element. */
  lemma {:induction false} RemoveFirstMembers<T>(s: seq<T>, x: T)
    requires NoDuplicates(s)
    ensures NoDuplicates(RemoveFirst(s, x))
    ensures forall y :: y in RemoveFirst(s, x) <==> y in s && y != x
  {
    if s != [] {
      if s[0] == x {
        assert forall y :: y in s[1..] ==> y != x by {
          forall y | y in s[1..] ensures y != x {
            var k :| 0 <= k < |s[1..]| && s[1..][k] == y;
            assert s[k + 1] == y;
          }
        }
      } else {
        assert NoDuplicates(s[1..]);
        RemoveFirstMembers(s[1..], x);
        var t := RemoveFirst(s[1..], x);
        assert s[0] !in s[1..];
        assert s[0] !in t;
        var r := [s[0]] + t;
        forall i, j | 0 <= i < j < |r| ensures r[i] != r[j] {
          if i == 0 {
            assert r[j] == t[j - 1];
            assert r[j] in t;
          } else {
            assert r[i] == t[i - 1] && r[j] == t[j - 1];
          }
        }
      }
    }
  }

  /**
   * `onRemove` on a list without duplicates: afterwards it holds exactly the
   * configurations that were not selected.
   */
  lemma {:induction false} RemoveEachMembers<T>(s: seq<T>, selected: seq<T>)
    requires NoDuplicates(s)
    ensures NoDuplicates(RemoveEach(s, selected))
    ensures forall y :: y in RemoveEach(s, selected) <==> y in s && y !in selected
  {
    if selected != [] {
      var init := selected[..|selected| - 1];
      RemoveEachMembers(s, init);
      RemoveFirstMembers(RemoveEach(s, init), selected[|selected| - 1]);
      assert selected == init + [selected[|selected| - 1]];
    }
  }

  class CloudPreferencePage {
    /** The configurations shown in the table (`CloudConfigurations.get()`). */
    var configs: seq<CloudConfiguration>
    /** The selection states of the four check boxes. */
    var enableSelected: bool
    var librarySelected: bool
    var referenceSelected: bool
    var commentSelected: bool
    /** Whether the dependent controls accept input. */
    var libraryEnabled: bool
    var referenceEnabled: bool
    var commentEnabled: bool
    var viewerEnabled: bool
    /** The preference store, and the list last handed to `CloudConfigurations.save`. */
    var store: map<PreferenceKey, bool>
    var saved: Option<seq<CloudConfiguration>>

    /**
     * `init` and `createContents`: the stored configurations, each check box
     * set from its preference, then `checkEnabled`.
     */
    constructor (configs: seq<CloudConfiguration>, store: map<PreferenceKey, bool>)
      ensures this.configs == configs && this.store == store && saved.None?
      ensures BoxesShowStore()
      ensures ControlsFollowEnable()
    {
      this.configs, this.store, saved := configs, store, None;
      enableSelected := StoredValue(store, Enable);
      librarySelected := StoredValue(store, CheckAgainstLibraries);
      referenceSelected := StoredValue(store, CheckReferences);
      commentSelected := StoredValue(store, DisplayComments);
      new;
      CheckEnabled();
    }

    /** Each check box shows what its preference reads from the store. */
    ghost predicate BoxesShowStore()
      reads this
    {
      && enableSelected == StoredValue(store, Enable)
      && librarySelected == StoredValue(store, CheckAgainstLibraries)
      && referenceSelected == StoredValue(store, CheckReferences)
      && commentSelected == StoredValue(store, DisplayComments)
    }

    /** The three check boxes and the table are enabled exactly when the first box is selected. */
    ghost predicate ControlsFollowEnable()
      reads this
    {
      libraryEnabled == enableSelected && referenceEnabled == enableSelected
      && commentEnabled == enableSelected && viewerEnabled == enableSelected
    }

    /** At most one configuration of the list is the default one. */
    ghost predicate AtMostOneDefault()
      reads this, configs
    {
      forall c, d :: c in configs && d in configs && c.isDefault && d.isDefault ==> c == d
    }

    /** `checkEnabled`. */
    method CheckEnabled()
      modifies this`libraryEnabled, this`referenceEnabled, this`commentEnabled, this`viewerEnabled
      ensures ControlsFollowEnable()
    {
      libraryEnabled := enableSelected;
      referenceEnabled := enableSelected;
      commentEnabled := enableSelected;
      viewerEnabled := enableSelected;
    }

    /** The listener of the enable check box, after the user (de)selects it. */
    method OnEnableSelected(selected: bool)
      modifies this`enableSelected, this`libraryEnabled, this`referenceEnabled, this`commentEnabled, this`viewerEnabled
      ensures enableSelected == selected && ControlsFollowEnable()
    {
      enableSelected := selected;
      CheckEnabled();
    }

    /**
     * The callback of the "is default" column for `conf`: every other
     * configuration of the list stops being the default; nothing else changes.
     */
    method DefaultChanged(conf: CloudConfiguration)
      modifies configs
      ensures forall c :: c in configs && c != conf ==> !c.isDefault
      ensures conf.isDefault == old(conf.isDefault)
      ensures forall c :: c in configs ==> c.url == old(c.url) && c.user == old(c.user) && c.password == old(c.password)
      ensures AtMostOneDefault()
    {
      for i := 0 to |configs|
        invariant forall c :: c in configs[..i] && c != conf ==> !c.isDefault
        invariant conf.isDefault == old(conf.isDefault)
        invariant forall c :: c in configs ==> c.url == old(c.url) && c.user == old(c.user) && c.password == old(c.password)
      {
        assert forall c :: c in configs[..i + 1] <==> c in configs[..i] || c == configs[i];
        if conf != configs[i] {
          configs[i].isDefault := false;
        }
      }
      assert configs[..|configs|] == configs;
    }

    /** `onAdd`: one new configuration with url "newServer" joins the end of the list. */
    method OnAdd()
      modifies this`configs
      ensures |configs| == |old(configs)| + 1 && configs[..|old(configs)|] == old(configs)
      ensures var c := configs[|configs| - 1];
              fresh(c) && c.url == Some("newServer") && c.user.None? && c.password.None? && !c.isDefault
    {
      var config := new CloudConfiguration();
      config.url := Some("newServer");
      configs := configs + [config];
    }

    /** `onRemove`: `configs.remove` for each selected configuration, in order. */
    method OnRemove(selected: seq<CloudConfiguration>)
      modifies this`configs
      ensures configs == RemoveEach(old(configs), selected)
      ensures forall keep :: (forall x :: x in selected ==> x !in keep) ==> Only(configs, keep) == Only(old(configs), keep)
      ensures NoDuplicates(old(configs)) ==> forall c :: c in configs <==> c in old(configs) && c !in selected
    {
      for i := 0 to |selected|
        invariant configs == RemoveEach(old(configs), selected[..i])
      {
        assert selected[..i + 1][..i] == selected[..i];
        configs := RemoveFirst(configs, selected[i]);
      }
      assert selected[..|selected|] == selected;
      forall keep | forall x :: x in selected ==> x !in keep
        ensures Only(configs, keep) == Only(old(configs), keep)
      {
        RemoveEachKeepsOrder(old(configs), selected, keep);
      }
      if NoDuplicates(old(configs)) {
        RemoveEachMembers(old(configs), selected);
      }
    }

    /**
     * `performOk`: the four check-box states go under their four keys, the
     * list is handed to the configuration store, and the page may close.
     */
    method PerformOk() returns (ok: bool)
      modifies this`store, this`saved
      ensures store == old(store)[Enable := enableSelected][CheckAgainstLibraries := librarySelected]
                                 [CheckReferences := referenceSelected][DisplayComments := commentSelected]
      ensures BoxesShowStore()
      ensures saved == Some(configs)
      ensures ok
    {
      store := store[Enable := enableSelected];
      store := store[CheckAgainstLibraries := librarySelected];
      store := store[CheckReferences := referenceSelected];
      store := store[DisplayComments := commentSelected];
      saved := Some(configs);
      return true;
    }
  }
}
