/**
 * The plugin's configuration table (defaults, unique, overrides) and the way it is
 * flattened into (key, value) registrations: defaults and unique entries get the
 * VENEACTIVA_THEME_ prefix, overrides go through as they are.
 */
module ThemeConfig {
  import Strings

  /** One footer link; the list order is the display order. */
  datatype FooterLink = FooterLink(title: string, url: string)

  /** The kinds of default values the table holds. */
  datatype ConfigValue = Str(s: string) | Flag(b: bool) | LinkList(links: seq<FooterLink>)

  /** An ordered table of settings, as a Python dict keeps insertion order. */
  type Table = seq<(string, ConfigValue)>

  /** The three scopes of the configuration table. */
  datatype PluginConfig = PluginConfig(defaults: Table, unique: Table, overrides: Table)

  /** What the three registration calls hand to the host, scope by scope. */
  datatype Registrations = Registrations(defaults: Table, unique: Table, overrides: Table)

  const KEY_PREFIX: string := "VENEACTIVA_THEME_"

  const DEFAULT_FOOTER_NAV_LINKS: seq<FooterLink> := [
    FooterLink("About Us", "/about"),
    FooterLink("Blog", "/blog"),
    FooterLink("Donate", "/donate"),
    FooterLink("Terms of Service", "/tos"),
    FooterLink("Privacy Policy", "/privacy"),
    FooterLink("Help", "/help"),
    FooterLink("Contact Us", "/contact")
  ]

  /**
   * The plugin's table; `version` is the package version, possibly with the host's suffix.
   * Six defaults with distinct keys, the version first and the footer links last; the
   * unique and override scopes are empty.
   */
  function Config(version: string): (c: PluginConfig)
    ensures |c.defaults| == 6 && DistinctKeys(c.defaults)
    ensures c.defaults[0] == ("VERSION", Str(version))
    ensures c.defaults[5] == ("FOOTER_NAV_LINKS", LinkList(DEFAULT_FOOTER_NAV_LINKS))
    ensures c.unique == [] && c.overrides == []
  {
    var c := PluginConfig(
      [ ("VERSION", Str(version)),
        ("WELCOME_MESSAGE", Str("The place for all your online learning")),
        ("PRIMARY_COLOR", Str("#0B4054")),
        ("SECONDARY_COLOR", Str("#15D0CA")),
        ("ENABLE_DARK_TOGGLE", Flag(true)),
        ("FOOTER_NAV_LINKS", LinkList(DEFAULT_FOOTER_NAV_LINKS)) ],
      [],
      []);
    assert DistinctKeys(c.defaults) by {
      forall i, j | 0 <= i < j < |c.defaults| ensures c.defaults[i].0 != c.defaults[j].0 {
        assert |c.defaults[i].0| != |c.defaults[j].0| || c.defaults[i].0[0] != c.defaults[j].0[0];
      }
    }
    c
  }

  /** No two entries of a table share a key. */
  predicate DistinctKeys(t: Table)
  {
    forall i, j :: 0 <= i < j < |t| ==> t[i].0 != t[j].0
  }

  /** Every key of a table carries the theme prefix. */
  predicate AllPrefixed(t: Table)
  {
    forall i :: 0 <= i < |t| ==> Strings.StartsWith(t[i].0, KEY_PREFIX)
  }

  /** The list comprehension that puts the prefix in front of every key, in order. */
  function Prefixed(t: Table): (r: Table)
    ensures |r| == |t|
    ensures forall i :: 0 <= i < |t| ==> r[i] == (KEY_PREFIX + t[i].0, t[i].1)
  {
    if t == [] then [] else [(KEY_PREFIX + t[0].0, t[0].1)] + Prefixed(t[1..])
  }

  /** Partner of `Prefixed`: drops the prefix from every key that carries it. */
  function Unprefixed(t: Table): (r: Table)
    ensures |r| == |t|
  {
    if t == [] then []
    else
      var key := t[0].0;
      var bare := if Strings.StartsWith(key, KEY_PREFIX) then key[|KEY_PREFIX|..] else key;
      [(bare, t[0].1)] + Unprefixed(t[1..])
  }

  /**
   * The three registration calls, scope by scope: defaults and unique entries keep
   * their number and get the prefix on every key, keeping distinct keys distinct;
   * overrides are handed over unchanged.
   */
  function Register(config: PluginConfig): (reg: Registrations)
    ensures |reg.defaults| == |config.defaults| && |reg.unique| == |config.unique|
    ensures AllPrefixed(reg.defaults) && AllPrefixed(reg.unique)
    ensures DistinctKeys(config.defaults) ==> DistinctKeys(reg.defaults)
    ensures DistinctKeys(config.unique) ==> DistinctKeys(reg.unique)
    ensures reg.overrides == config.overrides
  {
    PrefixedKeys(config.defaults);
    PrefixedKeys(config.unique);
    Registrations(Prefixed(config.defaults), Prefixed(config.unique), config.overrides)
  }

  // ---------------------------------------------------------------------------
  // Properties

  /** Prefixing loses nothing: dropping the prefix again gives the table back. */
  lemma {:induction false} PrefixedRoundTrip(t: Table)
    ensures Unprefixed(Prefixed(t)) == t
  {
    if t != [] {
      Strings.PrependThenDrop(KEY_PREFIX, t[0].0);
      PrefixedRoundTrip(t[1..]);
      assert Prefixed(t)[1..] == Prefixed(t[1..]);
    }
  }

  /** Every prefixed key carries the prefix, and keys are distinct after exactly when before. */
  lemma PrefixedKeys(t: Table)
    ensures AllPrefixed(Prefixed(t))
    ensures DistinctKeys(Prefixed(t)) <==> DistinctKeys(t)
  {
    var r := Prefixed(t);
    forall i | 0 <= i < |t| ensures Strings.StartsWith(r[i].0, KEY_PREFIX) {
      Strings.PrependThenDrop(KEY_PREFIX, t[i].0);
    }
    forall i, j | 0 <= i < j < |t| ensures r[i].0 != r[j].0 <==> t[i].0 != t[j].0 {
      Strings.PrependInjective(KEY_PREFIX, t[i].0, t[j].0);
    }
  }

  /**
   * Defaults and unique entries are registered prefixed, in order and with their
   * values; overrides are registered as they are, without a prefix.
   */
  lemma RegisterScopes(config: PluginConfig)
    ensures var reg := Register(config);
      && Unprefixed(reg.defaults) == config.defaults
      && Unprefixed(reg.unique) == config.unique
      && AllPrefixed(reg.defaults) && AllPrefixed(reg.unique)
      && reg.overrides == config.overrides
  {
    PrefixedRoundTrip(config.defaults);
    PrefixedRoundTrip(config.unique);
    PrefixedKeys(config.defaults);
    PrefixedKeys(config.unique);
  }

  /** The default footer has seven links, each with a non-empty title and URL. */
  lemma DefaultFooterLinks()
    ensures |DEFAULT_FOOTER_NAV_LINKS| == 7
    ensures forall l :: l in DEFAULT_FOOTER_NAV_LINKS ==> l.title != "" && l.url != ""
  {
  }

  /**
   * The plugin's own registrations: the six defaults, each under its prefixed key
   * with its value and in table order, and nothing in the unique or override scopes.
   */
  lemma PluginRegistrations(version: string)
    ensures var reg := Register(Config(version));
      && reg.defaults == [
           ("VENEACTIVA_THEME_VERSION", Str(version)),
           ("VENEACTIVA_THEME_WELCOME_MESSAGE", Str("The place for all your online learning")),
           ("VENEACTIVA_THEME_PRIMARY_COLOR", Str("#0B4054")),
           ("VENEACTIVA_THEME_SECONDARY_COLOR", Str("#15D0CA")),
           ("VENEACTIVA_THEME_ENABLE_DARK_TOGGLE", Flag(true)),
           ("VENEACTIVA_THEME_FOOTER_NAV_LINKS", LinkList(DEFAULT_FOOTER_NAV_LINKS)) ]
      && DistinctKeys(reg.defaults)
      && reg.unique == [] && reg.overrides == []
  {
    assert KEY_PREFIX + "VERSION" == "VENEACTIVA_THEME_VERSION";
    assert KEY_PREFIX + "WELCOME_MESSAGE" == "VENEACTIVA_THEME_WELCOME_MESSAGE";
    assert KEY_PREFIX + "PRIMARY_COLOR" == "VENEACTIVA_THEME_PRIMARY_COLOR";
    assert KEY_PREFIX + "SECONDARY_COLOR" == "VENEACTIVA_THEME_SECONDARY_COLOR";
    assert KEY_PREFIX + "ENABLE_DARK_TOGGLE" == "VENEACTIVA_THEME_ENABLE_DARK_TOGGLE";
    assert KEY_PREFIX + "FOOTER_NAV_LINKS" == "VENEACTIVA_THEME_FOOTER_NAV_LINKS";
  }
}
