/** The settings dialog of the graphical product-system editor: the dialog
    edits a copy of the editor's configuration, which replaces the editor's
    own settings only when the dialog is confirmed. */
module GraphSettings {
  import opened Common

  /** A graph theme: its id (possibly missing) and the caption the combo shows. */
  datatype Theme = Theme(id: Option<string>, caption: string)

  /** The settings of a graph configuration that the dialog edits. */
  datatype Settings = Settings(theme: Theme, showFlowIcons: bool, showElementaryFlows: bool, showFlowAmounts: bool)

  /** What the user does in the dialog: pick a combo entry or tick a box. */
  datatype DialogEvent =
    | SelectTheme(index: int)
    | ShowFlowIcons(on: bool)
    | ShowElementaryFlows(on: bool)
    | ShowFlowAmounts(on: bool)

  /** Every theme selection names an entry of the combo. */
  predicate WellFormed(events: seq<DialogEvent>, themes: seq<Theme>) {
    forall k :: 0 <= k < |events| && events[k].SelectTheme? ==> 0 <= events[k].index < |themes|
  }

  /** The settings after one dialog event. */
  function Step(s: Settings, e: DialogEvent, themes: seq<Theme>): Settings
    requires e.SelectTheme? ==> 0 <= e.index < |themes|
  {
    match e
    case SelectTheme(i) => s.(theme := themes[i])
    case ShowFlowIcons(on) => s.(showFlowIcons := on)
    case ShowElementaryFlows(on) => s.(showElementaryFlows := on)
    case ShowFlowAmounts(on) => s.(showFlowAmounts := on)
  }

  /** The settings after a sequence of dialog events. */
  function Edited(s: Settings, events: seq<DialogEvent>, themes: seq<Theme>): Settings
    requires WellFormed(events, themes)
  {
    if events == [] then s
    else Step(Edited(s, events[..|events| - 1], themes), events[|events| - 1], themes)
  }

  /** events[k] is the last theme selection among the events. */
  predicate LastThemeChoice(events: seq<DialogEvent>, k: int) {
    0 <= k < |events| && events[k].SelectTheme? && forall j :: k < j < |events| ==> !events[j].SelectTheme?
  }

  /** The last theme choice wins; without one the theme stays. */
  lemma {:induction false} EditedTheme(s: Settings, events: seq<DialogEvent>, themes: seq<Theme>)
    requires WellFormed(events, themes)
    ensures (forall k :: 0 <= k < |events| ==> !events[k].SelectTheme?) ==> Edited(s, events, themes).theme == s.theme
    ensures forall k :: LastThemeChoice(events, k) ==> Edited(s, events, themes).theme == themes[events[k].index]
  {
    if events != [] {
      var init := events[..|events| - 1];
      InitWellFormed(events, themes);
      EditedTheme(s, init, themes);
      var n := |events| - 1;
      var r := Edited(s, events, themes);
      assert r == Step(Edited(s, init, themes), events[n], themes);
      StepTheme(Edited(s, init, themes), events[n], themes);
      forall k | LastThemeChoice(events, k) ensures r.theme == themes[events[k].index] {
        if k < n {
          LastChoiceInInit(events, k);
        }
      }
      if forall k :: 0 <= k < |events| ==> !events[k].SelectTheme? {
        assert !events[n].SelectTheme?;
        forall k | 0 <= k < |init| ensures !init[k].SelectTheme? {
          assert init[k] == events[k];
        }
      }
    }
  }

  /** Only a theme selection changes the theme. */
  lemma StepTheme(s: Settings, e: DialogEvent, themes: seq<Theme>)
    requires e.SelectTheme? ==> 0 <= e.index < |themes|
    ensures Step(s, e, themes).theme == if e.SelectTheme? then themes[e.index] else s.theme
  {
  }

  lemma InitWellFormed(events: seq<DialogEvent>, themes: seq<Theme>)
    requires events != [] && WellFormed(events, themes)
    ensures WellFormed(events[..|events| - 1], themes)
  {
    var init := events[..|events| - 1];
    forall k | 0 <= k < |init| && init[k].SelectTheme? ensures 0 <= init[k].index < |themes| {
      assert init[k] == events[k];
    }
  }

  /** A last theme choice before the final event is also the last one before it. */
  lemma LastChoiceInInit(events: seq<DialogEvent>, k: int)
    requires LastThemeChoice(events, k) && k < |events| - 1
    ensures !events[|events| - 1].SelectTheme?
    ensures LastThemeChoice(events[..|events| - 1], k)
  {
    var init := events[..|events| - 1];
    forall j | k < j < |init| ensures !init[j].SelectTheme? {
      assert init[j] == events[j];
    }
    assert init[k] == events[k];
  }

  /** getInitialSize: the display's size where it is smaller than the
      default 600 x 350 and positive, the default otherwise. */
  function InitialSize(x: int, y: int): (size: (int, int))
    ensures 0 < size.0 <= 600 && 0 < size.1 <= 350
    ensures (size.0 == x || size.0 == 600) && (size.1 == y || size.1 == 350)
    ensures 0 < x <= 600 ==> size.0 == x
    ensures 0 < y <= 350 ==> size.1 == y
  {
    var width := if 0 < x && x < 600 then x else 600;
    var height := if 0 < y && y < 350 then y else 350;
    (width, height)
  }

  /** A size the dialog already fits is kept: the rule is idempotent. */
  lemma InitialSizeIdempotent(x: int, y: int)
    ensures InitialSize(InitialSize(x, y).0, InitialSize(x, y).1) == InitialSize(x, y)
  {
  }

  /** The combo's initial index: the last theme whose id equals the current
      theme's id (Objects.equals, so two missing ids match), else 0. */
  method ThemeIndex(themes: seq<Theme>, current: Theme) returns (idx: int)
    ensures (exists i :: 0 <= i < |themes| && themes[i].id == current.id) ==>
      0 <= idx < |themes| && themes[idx].id == current.id &&
      forall j :: idx < j < |themes| ==> themes[j].id != current.id
    ensures (forall i :: 0 <= i < |themes| ==> themes[i].id != current.id) ==> idx == 0
  {
    idx := 0;
    var found := false;
    for i := 0 to |themes|
      invariant found ==> 0 <= idx < i && themes[idx].id == current.id
      invariant found ==> forall j :: idx < j < i ==> themes[j].id != current.id
      invariant !found ==> idx == 0 && forall j :: 0 <= j < i ==> themes[j].id != current.id
    {
      if themes[i].id == current.id {
        idx := i;
        found := true;
      }
    }
  }

  /** A graph configuration; GraphConfig is not part of this model, and its
      copy (from) and applyOn are taken to carry these four settings. */
  class GraphConfig {
    var settings: Settings

    constructor (settings: Settings)
      ensures this.settings == settings
    {
      this.settings := settings;
    }

    /** GraphConfig.from: a new configuration with the same settings. */
    method Copy() returns (c: GraphConfig)
      ensures fresh(c) && c.settings == settings
    {
      c := new GraphConfig(settings);
    }

    /** applyOn: the target takes these settings. */
    method ApplyOn(target: GraphConfig)
      modifies target
      ensures target.settings == settings
    {
      target.settings := settings;
    }

    /** The dialog's listeners: each event changes this configuration. */
    method Handle(e: DialogEvent, themes: seq<Theme>)
      requires e.SelectTheme? ==> 0 <= e.index < |themes|
      modifies this
      ensures settings == Step(old(settings), e, themes)
    {
      match e
      case SelectTheme(i) => settings := settings.(theme := themes[i]);
      case ShowFlowIcons(on) => settings := settings.(showFlowIcons := on);
      case ShowElementaryFlows(on) => settings := settings.(showElementaryFlows := on);
      case ShowFlowAmounts(on) => settings := settings.(showFlowAmounts := on);
    }
  }

  class GraphEditor {
    const config: GraphConfig
    var dirty: bool
    var refreshes: nat

    constructor (config: GraphConfig)
      ensures this.config == config && !dirty && refreshes == 0
    {
      this.config := config;
      dirty := false;
      refreshes := 0;
    }
  }

  /** run: opens the dialog on a copy of the editor's configuration, with
      the user's events and answer (ok) as inputs; only a confirmed dialog
      changes the editor, which is then refreshed and marked dirty. */
  method Run(editor: GraphEditor?, themes: seq<Theme>, events: seq<DialogEvent>, ok: bool)
    requires WellFormed(events, themes)
    modifies if editor != null then {editor, editor.config} else {}
    ensures editor != null && ok ==>
      editor.config.settings == Edited(old(editor.config.settings), events, themes)
      && editor.dirty && editor.refreshes == old(editor.refreshes) + 1
    ensures editor != null && !ok ==>
      editor.config.settings == old(editor.config.settings)
      && editor.dirty == old(editor.dirty) && editor.refreshes == old(editor.refreshes)
  {
    if editor == null {
      return;
    }
    var copy := editor.config.Copy();
    for k := 0 to |events|
      invariant copy.settings == Edited(old(editor.config.settings), events[..k], themes)
      invariant editor.config.settings == old(editor.config.settings)
      invariant editor.dirty == old(editor.dirty) && editor.refreshes == old(editor.refreshes)
    {
      assert events[..k + 1][..k] == events[..k];
      copy.Handle(events[k], themes);
    }
    assert events[..|events|] == events;
    if ok {
      copy.ApplyOn(editor.config);
      editor.refreshes := editor.refreshes + 1;
      editor.dirty := true;
    }
  }
}
