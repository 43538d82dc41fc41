# veneactiva-theme plugin — Dafny model

The veneactiva-theme plugin configures a Tutor (Open edX) deployment. Almost all of
its work is registering fixed data into the host's hook registry. This project models
the three pieces of the plugin that contain logic, and proves what they promise:

- **The docker-image override** (`DockerImage`). The `CONFIG_DEFAULTS` filter
  `_override_openedx_docker_image` scans the host's `(key, value)` defaults. It keeps
  the last value seen for `DOCKER_IMAGE_OPENEDX` and the last value seen for
  `MFE_DOCKER_IMAGE`. For each of the two that is non-empty, it appends a pair with
  `-veneactiva-theme` added to the value. It appends to the caller's list and returns
  that same list. `ItemList` is that list: a class whose `Append` is `list.append`.
  `LatestImages` is the scan loop. `OverrideOpenedxDockerImage` is the whole filter,
  proved to leave the list equal to `Overridden` of its old contents. The lemmas
  describe `Overridden`:
  - existing entries are kept;
  - the last occurrence wins;
  - a missing or empty image is skipped;
  - the openedx pair comes before the MFE pair;
  - a reader that keeps the last value per key sees the themed images.
- **Configuration flattening** (`ThemeConfig`). The configuration table has three
  scopes. Defaults and unique entries are registered with the `VENEACTIVA_THEME_`
  prefix, in order. Overrides are registered as they are. `Unprefixed` is the inverse
  of `Prefixed`, and the round-trip lemma proves that prefixing loses nothing.
- **Per-MFE registrations** (`StyledMfes`). Each of the five styled micro-frontends
  gets one Dockerfile patch, named `mfe-dockerfile-post-npm-install-<mfe>`. It also
  gets one `(mfe, "footer_slot", body)` plugin-slot item. Both lists follow the order
  of the MFE list. The patch names are distinct, and none of them equals the separate
  `authn` patch name.

`Strings` holds two small facts about string prefixes that the other modules use.

Configuration values in the docker-image filter are strings. Python's truth test on a
string holds exactly when the string is non-empty, so "truthy" is modelled as `!= ""`.

Only defaults and unique entries get the `VENEACTIVA_THEME_` prefix. Override entries
are registered unchanged (`plugin.py:105`), and `RegisterScopes` states this. The
plugin's own overrides table is empty (`plugin.py:42`).

## Model

| member | source | states |
|---|---|---|
| `DockerImage.LatestImages` | veneactiva-theme/plugin.py:84-90 | after the scan, each local holds the value of the last entry with its key, or "" when no entry has that key |
| `DockerImage.ItemList.Append` | veneactiva-theme/plugin.py:92-94 | `list.append`: the new pair is added at the end and nothing else changes |
| `DockerImage.OverrideOpenedxDockerImage` | veneactiva-theme/plugin.py:80-95 | the filter returns the list it was given, and leaves that list equal to `Overridden` of its old contents |
| `DockerImage.Overridden` | veneactiva-theme/plugin.py:86-95 | the result starts with the input unchanged and has at most two more entries |
| `DockerImage.LastValueIsLastOccurrence` | veneactiva-theme/plugin.py:84-90 | the remembered value is the value at the last position holding the key, and "" when no position holds it |
| `DockerImage.OpenedxImageThemed` | veneactiva-theme/plugin.py:86-92 | if the last `DOCKER_IMAGE_OPENEDX` value v is non-empty, the entry right after the input is `(DOCKER_IMAGE_OPENEDX, v + "-veneactiva-theme")` |
| `DockerImage.MfeImageThemed` | veneactiva-theme/plugin.py:89-94 | if the last `MFE_DOCKER_IMAGE` value v is non-empty, the final entry is `(MFE_DOCKER_IMAGE, v + "-veneactiva-theme")` |
| `DockerImage.BothImagesThemed` | veneactiva-theme/plugin.py:91-94 | with both images set, the result is the input plus exactly two pairs, the openedx pair before the MFE pair |
| `DockerImage.SkippedWhenAbsentOrEmpty` | veneactiva-theme/plugin.py:84-94 | an image key that is absent, or whose last value is empty, gets no appended entry, and the filter does not fail |
| `DockerImage.UnchangedWithoutImages` | veneactiva-theme/plugin.py:84-95 | an input in which each image key is absent or has an empty last value comes back unchanged |
| `DockerImage.EffectiveValuesThemed` | veneactiva-theme/plugin.py:86-95 | reading the result with last-entry-wins gives each image key its themed value when set, and every other key its old value |
| `DockerImage.LastValueAppend` | veneactiva-theme/plugin.py:86-90 | appending a pair changes the last-occurrence value of that pair's own key only |
| `ThemeConfig.Prefixed` | veneactiva-theme/plugin.py:99-104 | the flattened list has the same length and order as the table, each key is `VENEACTIVA_THEME_` + the original key, and each value is carried over |
| `ThemeConfig.PrefixedRoundTrip` | veneactiva-theme/plugin.py:99-104 | removing the prefix from the flattened list gives back the original table |
| `ThemeConfig.PrefixedKeys` | veneactiva-theme/plugin.py:99-104 | every flattened key starts with the prefix, and flattened keys are distinct exactly when the original keys are |
| `ThemeConfig.RegisterScopes` | veneactiva-theme/plugin.py:99-105 | defaults and unique entries are registered prefixed, in order and with their values; overrides are registered unchanged |
| `ThemeConfig.DefaultFooterLinks` | veneactiva-theme/plugin.py:31-39 | the default footer has exactly 7 links, each with a non-empty title and URL |
| `ThemeConfig.Config` | veneactiva-theme/plugin.py:20-43 | the table holds six defaults with distinct keys, `VERSION` first and `FOOTER_NAV_LINKS` with the 7 links last, and empty unique and override scopes |
| `ThemeConfig.Register` | veneactiva-theme/plugin.py:99-105 | defaults and unique entries keep their number, every key gets the prefix, and distinct keys stay distinct; overrides are handed over unchanged |
| `ThemeConfig.PluginRegistrations` | veneactiva-theme/plugin.py:20-105 | the plugin registers exactly the six defaults in table order, each under its prefixed key with its value (`ENABLE_DARK_TOGGLE` true, the 7 footer links last), with distinct keys and no unique or override entries |
| `StyledMfes.PatchName` | veneactiva-theme/plugin.py:120 | a patch name is the hook prefix followed by the MFE name, and removing the prefix gives back the MFE name |
| `StyledMfes.DockerfilePatches` | veneactiva-theme/plugin.py:117-131 | there is one patch per MFE, in list order, named after the MFE's hook and carrying the given body |
| `StyledMfes.FooterSlots` | veneactiva-theme/plugin.py:192-222 | there is one `(mfe, "footer_slot", body)` item per MFE, in list order |
| `StyledMfes.PatchNamesDistinct` | veneactiva-theme/plugin.py:109-131 | patch names are pairwise distinct exactly when the MFE names are |
| `StyledMfes.PatchNameOwner` | veneactiva-theme/plugin.py:117-131 | the patch named after MFE m belongs to m alone: a patch in the list has that name exactly when its MFE is m |
| `StyledMfes.StyledMfeRegistrations` | veneactiva-theme/plugin.py:109-139 | the five styled MFEs yield five patches and five slot items, one pair per MFE in list order, with no patch name repeated and none equal to the authn patch name |

## Left out

- Calls into the host registry (`hooks.Filters.*.add_item(s)`, `PLUGIN_SLOTS.add_item`, the filter decorator and its `LOW` priority). They belong to the host library, whose dispatch and ordering are not part of this model. The model describes the lists handed to those calls.
- Template roots, template targets and include patterns (`plugin.py:46-63`). These are constant registrations with no logic.
- Reading `init.sh` and registering it for `lms` (`plugin.py:67-76`). This is file I/O.
- Loading the `patches` directory with `glob` (`plugin.py:182-189`). This is file I/O, and the order of the directory listing is not defined.
- The three settings patches (`plugin.py:143-178`). They are constant text with no logic.
- The text of the npm-install patch and the footer-slot body. The host renders this text later, so the model passes it in as opaque parameters.
- Adding the host's version suffix to the version (`plugin.py:15-16`). It depends on a host constant, so `ThemeConfig.Config` takes the final version string as a parameter.
- DockerImage.LatestImages: handles only string values. The source accepts any value and tests it for truth, so `None` or non-string values are not modelled.
- DockerImage.OverrideOpenedxDockerImage: handles only string values, as the `Pair` type does throughout the module. For a non-string truthy value the source's f-string appends `str(v)` with the suffix; that conversion is not modelled.
- How the host reads back a `FOOTER_NAV_LINKS` value saved as an empty list. That is host behaviour.
