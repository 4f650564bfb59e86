// The domain presets of src/lib/presets.ts: which preset a hostname selects.

module Presets {
  import opened Wrappers
  import opened JsString

  /** `DOMAIN_PRESETS`: a preset name, or `None` for the `null` of a host that shows
      the launcher page. */
  const DomainPresets: map<string, Option<string>> := map[
    "btango.com" := Some("btango"),
    "tangoclass.btango.com" := Some("btango-class"),
    "tangodj.btango.com" := Some("btango-dj"),
    "vivianblues.com" := Some("vivianblues"),
    "vivibl.com" := Some("vivianblues"),
    "vivimil.com" := Some("vivianblues"),
    "xn--pg3bl5ba.com" := Some("vivianblues"),
    "veneer.leftium.com" := None
  ]

  /** `Preset` */
  datatype Preset = Preset(
    tabs: seq<string>,
    defaultFormId: Option<string>,
    defaultSheetId: Option<string>,
    headerImage: Option<string>,
    headerColor: string,
    headerHeight: string,
    headerTextColor: string)

  /** `PRESETS` */
  const PresetTable: map<string, Preset> := map[
    "base" := Preset(["info", "form", "list"], None, None, Some("/dance_night.gif"),
      "#0b4474", "100px", "white"),
    "btango" := Preset(["info", "form", "list"], Some("g.4EKt4Vyzgq1E5eHC8"),
      Some("s.1jwmdTf0fArizqA8IM6EavaTYDKn_uXMKj_VF3K1gw40"), Some("/dance_night.gif"),
      "#0b4474", "100px", "white"),
    "btango-class" := Preset(["info", "form", "list"], Some("g.rzQZWr3o17Doj3Nq5"),
      Some("s.1bYczvgFwW0t5A858xTIESlhulGP1cBtBlaDBwOHus30"), Some("/dance_night.gif"),
      "#0b4474", "100px", "white"),
    "btango-dj" := Preset(["form", "list"], Some("g.H9nD4tKrkp1m8ESC9"),
      Some("s.16AtRFdLdYfnJRcXTf5N3fcLvZMMu48eECHXpxLHv7VU"), Some("/dance_night.gif"),
      "#0b4474", "100px", "white"),
    "vivianblues" := Preset(["info", "form", "list"], Some("g.r6eRUz2U9uf5oVFn6"),
      Some("s.13E_wsbrKLEsuV-eDaTKl0a967EdpYgcZrXH0Gq_KK3g"), Some("/dance_night.gif"),
      "#0b4474", "100px", "white"),
    "minimal" := Preset(["info"], None, None, None, "#333", "0", "white"),
    "kiosk" := Preset(["form"], None, None, None, "#333", "40px", "white")
  ]

  /** `hostname.replace(/^www\./, '')` */
  function StripWww(hostname: string): (r: string)
    ensures StartsWith(hostname, "www.") ==> hostname == "www." + r
    ensures !StartsWith(hostname, "www.") ==> r == hostname
  {
    if StartsWith(hostname, "www.") then
      assert hostname == hostname[..4] + hostname[4..];
      hostname[4..]
    else hostname
  }

  /** `resolvePresetName(hostname)`; `None` is the `null` result. */
  function ResolvePresetName(hostname: string): Option<string> {
    var normalized := StripWww(hostname);
    if normalized in DomainPresets then DomainPresets[normalized] else None
  }

  /** One leading `www.` is ignored. */
  lemma WwwIgnored(h: string)
    requires !StartsWith(h, "www.")
    ensures ResolvePresetName("www." + h) == ResolvePresetName(h)
  {
    var w := "www." + h;
    assert w[..4] == "www.";
    assert StripWww(w) == h;
  }

  /** The result is `null` both for a host mapped to `null` and for an unknown host. */
  lemma NullCases(hostname: string)
    ensures var n := StripWww(hostname);
      ResolvePresetName(hostname).None? <==> (n !in DomainPresets || DomainPresets[n].None?)
  {
  }

  /** Every preset name in the domain table is a key of the preset table. */
  lemma DomainTableConsistent()
    ensures forall h :: h in DomainPresets && DomainPresets[h].Some? ==> DomainPresets[h].value in PresetTable
  {
    assert "btango" in PresetTable && "btango-class" in PresetTable && "btango-dj" in PresetTable;
    assert "vivianblues" in PresetTable;
    forall h | h in DomainPresets && DomainPresets[h].Some?
      ensures DomainPresets[h].value in PresetTable
    {
      assert DomainPresets[h].value in {"btango", "btango-class", "btango-dj", "vivianblues"};
    }
  }

  /** So every name `resolvePresetName` gives names a preset. */
  lemma ResolvedNamesExist(hostname: string)
    ensures ResolvePresetName(hostname).Some? ==> ResolvePresetName(hostname).value in PresetTable
  {
    DomainTableConsistent();
  }

  lemma NotWww(h: string)
    requires |h| >= 4 && h[0] != 'w'
    ensures !StartsWith(h, "www.")
  {
    assert h[..4][0] == h[0];
  }

  lemma ResolveExamples()
    ensures ResolvePresetName("www.btango.com") == Some("btango")
    ensures ResolvePresetName("tangodj.btango.com") == Some("btango-dj")
    ensures ResolvePresetName("veneer.leftium.com") == None
    ensures ResolvePresetName("example.com") == None
  {
    NotWww("btango.com");
    WwwIgnored("btango.com");
    NotWww("tangodj.btango.com");
    NotWww("veneer.leftium.com");
    NotWww("example.com");
  }
}
