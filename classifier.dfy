/** Which windows get shaped corners. The window is described by the introspection
    predicates the effect asks of it; the decision itself is stated here as one formula,
    and the effect's isValid (an ordered series of early returns) is proved equal to it. */
module Classifier {
  import opened Text
  import opened Geometry

  /** The parts of an EffectWindow the effect consults. */
  datatype Window = Window(
    windowClass: string,
    isNormalWindow: bool,
    isDialog: bool,
    isModal: bool,
    isPaintingEnabled: bool,
    isDesktop: bool,
    isPopupMenu: bool,
    geometry: Rect)

  /** Some entry of `patterns` occurs in `cls`, ignoring case. */
  ghost predicate AnyMatch(patterns: seq<string>, cls: string) {
    exists i :: 0 <= i < |patterns| && ContainsCI(cls, patterns[i])
  }

  /** The Plasma heuristic: a Plasma shell surface that is not an ordinary, dialog or modal window. */
  ghost predicate PlasmaExcluded(w: Window) {
    ContainsCI(w.windowClass, "plasma") && !w.isNormalWindow && !w.isDialog && !w.isModal
  }

  /** Windows never shaped: not being painted, the desktop, popup menus. */
  predicate Unpaintable(w: Window) {
    !w.isPaintingEnabled || w.isDesktop || w.isPopupMenu
  }

  /** Eligibility: nothing without a working shader; a whitelisted class always; otherwise
      only a class not blacklisted that neither heuristic excludes. */
  ghost predicate Eligible(shaderValid: bool, whitelist: seq<string>, blacklist: seq<string>, w: Window) {
    shaderValid &&
    (AnyMatch(whitelist, w.windowClass) ||
     (!AnyMatch(blacklist, w.windowClass) && !PlasmaExcluded(w) && !Unpaintable(w)))
  }

  /** A whitelist match wins even when a blacklist entry matches too. */
  lemma WhitelistOverridesBlacklist(whitelist: seq<string>, blacklist: seq<string>, w: Window, i: nat)
    requires i < |whitelist| && ContainsCI(w.windowClass, whitelist[i])
    ensures Eligible(true, whitelist, blacklist, w)
  {
  }

  /** A Plasma surface of another kind that no list mentions is not shaped. */
  lemma PlasmaSurfaceExcluded(whitelist: seq<string>, blacklist: seq<string>, w: Window)
    requires !AnyMatch(whitelist, w.windowClass) && PlasmaExcluded(w)
    ensures !Eligible(true, whitelist, blacklist, w)
  {
  }
}
