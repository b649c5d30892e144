# Responsive-image attribute injection, modelled in Dafny

This project models the attribute-rewriting core of the `DomManipulator` class
of the OFFLINE Responsive Images plugin. The class finds the `<img>` elements of
a rendered page, resolves each one's source to a normalised key and looks that
key up in a table of source sets. On a hit it fills the `srcset` attribute
(or a configured replacement) and `sizes`, and it appends a configured CSS class.

The HTML document is abstracted as the sequence of its `<img>` elements, in
document order. Each element is an attribute map (`Html.Node`), and an attribute
that is not there reads as `""`. That is how the code treats an unset
attribute: it compares against `''`.

- `Slashes`: `trim($s, '/')`, meaning first every leading slash is dropped, then
  every trailing one. It is proved equivalent to an independent description:
  the input is a run of slashes, then the result, then a run of slashes, and the
  result has no slash at either end.
- `Settings`: the three plugin settings as an explicit `Config` record
  (`alternative_src`, `alternative_src_set`, `add_class`). A setting that is not
  configured is `""`. PHP truthiness of a string is modelled exactly: `""` and
  `"0"` are false.
- `DomManipulator`: key resolution, the source listing, the three setters, one
  step of the injection loop and the whole pass.
- `InjectionProperties`: properties that relate several calls, such as key
  stability, what a second pass does, and what happens when the configured
  srcset target collides with `sizes` or `class`.

A source-set entry is a type parameter `E`. Its two formatting operations,
`getSrcSetAttribute()` and `getSizesAttribute($width)`, are the two function
values of a `Formatter<E>` record. Nothing is assumed about them.

The srcset setter runs before the sizes setter (line 81, then 82). The order
matters only when the srcset target is `sizes` or `width`;
`InjectionProperties.TargetIsSizes` states the outcome for `sizes`.

## Model

| member | source | states |
|---|---|---|
| `Slashes.TrimLeft` | classes/DomManipulator.php:159 | the result is a suffix of the input; everything dropped is a slash; the result does not start with a slash |
| `Slashes.TrimRight` | classes/DomManipulator.php:159 | the result is a prefix of the input; everything dropped is a slash; the result does not end with a slash |
| `Slashes.TrimSlashes` | classes/DomManipulator.php:159 | the trimmed key never begins or ends with `/` and is no longer than the input |
| `Slashes.TrimSlashesIsTrimOf` | classes/DomManipulator.php:159 | the input is slashes + result + slashes, so the interior characters are unchanged |
| `Slashes.TrimLeftSkips` | classes/DomManipulator.php:159 | dropping leading slashes from a run of slashes followed by a text that does not start with `/` leaves exactly that text |
| `Slashes.TrimRightSkips` | classes/DomManipulator.php:159 | dropping trailing slashes from a text that does not end with `/` followed by a run of slashes leaves exactly that text |
| `Slashes.TrimUnique` | classes/DomManipulator.php:159 | wrapping a text with no edge slash in any runs of slashes and trimming gives that text back |
| `Slashes.TrimSlashesCharacterized` | classes/DomManipulator.php:159 | the slash-trim of `s` is exactly `TrimSlashes(s)`, in both directions |
| `Slashes.TrimSlashesIdempotent` | classes/DomManipulator.php:159 | trimming again is a no-op |
| `Slashes.TrimOneLeadingSlash` | classes/DomManipulator.php:159 | a single leading slash in front of a text with no edge slash is removed and nothing else changes |
| `Slashes.TrimExample` | classes/DomManipulator.php:159 | `/img/a.jpg/` resolves to `img/a.jpg` |
| `Html.Attr` | classes/DomManipulator.php:98 | `getAttribute`: a present attribute reads as its value, and a non-empty read comes only from a present attribute, so an absent one reads as `''` |
| `Html.SetAttr` | classes/DomManipulator.php:102 | after `setAttribute` the attribute reads as the new value; every other attribute is unchanged and none disappears |
| `Settings.Truthy` | classes/DomManipulator.php:114 | PHP truthiness of a string setting, as used at lines 114, 133 and 155: a setting is truthy exactly when it is neither `""` nor `"0"` |
| `Settings.TargetAttribute` | classes/DomManipulator.php:113-116 | the target is the `alternative_src_set` setting when that is truthy, otherwise `srcset`; it is never empty |
| `DomManipulator.UsesAlternativeSrcExactly` | classes/DomManipulator.php:155 | the alternative source attribute is used exactly when the setting is truthy and the node holds a non-empty value in that attribute; both directions |
| `DomManipulator.SrcKey` | classes/DomManipulator.php:149-160 | the resolved key never begins or ends with `/` |
| `DomManipulator.SrcKeyResolution` | classes/DomManipulator.php:151-159 | the key is the slash-trim of the alternative attribute when that setting is truthy and the attribute is non-empty on the node; otherwise it is the slash-trim of `src`, even when the alternative attribute is present but empty; both directions |
| `DomManipulator.GetImageSources` | classes/DomManipulator.php:51-60 | one key per image node, in node order, each the node's resolved key and free of edge slashes |
| `DomManipulator.SetSrcSetAttribute` | classes/DomManipulator.php:111-124 | a non-empty value in the target attribute is kept and the node is returned unchanged; an empty one becomes the entry's srcset string; nothing else changes |
| `DomManipulator.SetSizesAttribute` | classes/DomManipulator.php:95-103 | a non-empty `sizes` is kept and the node is returned unchanged; an empty one becomes the entry's sizes string for the node's `width`; nothing else changes |
| `DomManipulator.SetClassAttribute` | classes/DomManipulator.php:131-140 | when `add_class` is truthy, `class` becomes old value + `" "` + class, with no deduplication; otherwise the node is unchanged; nothing else changes |
| `DomManipulator.ApplyEntry` | classes/DomManipulator.php:81-83 | the three setters together change only the srcset target, `sizes` and `class`, and no attribute disappears |
| `DomManipulator.ApplyEntryRules` | classes/DomManipulator.php:81-83 | each of the three attributes follows its setter's rule when the target is distinct from the attributes the later setters read or write; both the target and `sizes` are present afterwards |
| `DomManipulator.InjectNode` | classes/DomManipulator.php:74-83 | a node whose key is not in the table is returned identical; a matched node changes only in the srcset target, `sizes` and `class`: every other attribute is preserved (so `src` and `width` are, unless one of them is the target) |
| `DomManipulator.InjectNodeMatched` | classes/DomManipulator.php:74-83 | a node whose key is in the table goes through the three setters with the entry stored under its own key |
| `DomManipulator.InjectNodeRules` | classes/DomManipulator.php:74-83 | on a matched node, the srcset, sizes and class rules hold with the node's own table entry |
| `DomManipulator.AddSrcSetAttributes` | classes/DomManipulator.php:70-87 | the pass keeps the node count and order; each output node is the injection step applied to the input node at the same position |
| `InjectionProperties.UnmatchedNodesUnchanged` | classes/DomManipulator.php:72-79 | every node whose key is not in the table comes out of the pass identical |
| `InjectionProperties.InjectNodeFrame` | classes/DomManipulator.php:81-83 | an attribute other than the srcset target, `sizes` and `class` reads the same after the step |
| `InjectionProperties.SrcKeyReadsOnlySources` | classes/DomManipulator.php:149-160 | the key depends only on `src` and the alternative source attribute |
| `InjectionProperties.InjectNodeKeepsKey` | classes/DomManipulator.php:72-84 | when the pass writes neither `src` nor the alternative source attribute, the step does not change what a node resolves to |
| `InjectionProperties.ApplyEntryKeepsKey` | classes/DomManipulator.php:81-83 | when neither `src` nor the alternative source attribute is written, the three setters leave the key unchanged |
| `InjectionProperties.ApplyEntryRefillSrcSet` | classes/DomManipulator.php:118-123 | the srcset setter, run again with the same entry on the setters' output, changes nothing, whatever the srcset target is |
| `InjectionProperties.ApplyEntryRefillSizes` | classes/DomManipulator.php:97-102 | the sizes setter, run again with the same entry on the setters' output, changes nothing, whatever the srcset target is |
| `InjectionProperties.ApplyEntryTwice` | classes/DomManipulator.php:81-83 | running the three setters twice with the same entry equals appending the class once more to the first run's result, whatever the srcset target is |
| `InjectionProperties.RefillSrcSetChangesNothing` | classes/DomManipulator.php:118-123 | after one step, the srcset setter with the same entry leaves the node as it is |
| `InjectionProperties.RefillSizesChangesNothing` | classes/DomManipulator.php:97-102 | after one step, the sizes setter with the same entry leaves the node as it is |
| `InjectionProperties.SecondPassOnlyAppendsClass` | classes/DomManipulator.php:72-84 | a second step on a matched node equals appending the class once more to the first step's result |
| `InjectionProperties.ClassAppendedOncePerPass` | classes/DomManipulator.php:131-140 | two passes append the configured class twice to every matched node |
| `InjectionProperties.IdempotentWithoutClass` | classes/DomManipulator.php:95-124 | with no class to add, a second pass returns the first pass's output unchanged |
| `InjectionProperties.TargetIsSizes` | classes/DomManipulator.php:81-82 | when the srcset target is `sizes`, an empty `sizes` ends as the srcset string, or as the sizes string if the srcset string is empty |
| `InjectionProperties.ApplyEntryTargetIsSizes` | classes/DomManipulator.php:81-82 | the same outcome for the three setters given the entry directly |
| `InjectionProperties.TargetIsClass` | classes/DomManipulator.php:81-83 | when the srcset target is `class`, an empty `class` first receives the srcset string, and the configured class is appended to that |
| `InjectionProperties.ApplyEntryTargetIsClass` | classes/DomManipulator.php:81-83 | the same outcome for the three setters given the entry directly |

## Left out

- The constructor, parsing and entity encoding (classes/DomManipulator.php:28-44) belong to the PHPHtmlParser library and `mb_convert_encoding`, and their behaviour is not visible. The model starts from the list of image nodes. The constructor also looks defective: line 35 calls `setOptions` on the parameter `$dom`, which is null exactly when line 32 has just created `$this->dom`, and a `$dom` that is passed in is never stored.
- Serialisation through `$this->dom->outerHtml` (line 86) is library output. `AddSrcSetAttributes` returns the updated node sequence instead.
- `SourceSet` is not part of this model. Its two formatting operations are uninterpreted function values.
- `Settings::get` is global state. It is replaced by the `Config` parameter, and "not configured" is read as `""`. A non-string setting value is not modelled.
- For an absent attribute the library may return `null` rather than `''`. If so, `null !== ''` is true at lines 98, 119 and 155. At line 155 an absent alternative attribute would be picked and the key would become `trim(null)`, which is `""`. At lines 98 and 119 an absent `sizes` or srcset target would count as set and never be filled, contrary to what `SetSizesAttribute` and `SetSrcSetAttribute` state for nodes lacking the attribute. An absent `width` would reach `getSizesAttribute` as `null`. The model fixes absent-reads-as-`""` to match the code's own comparisons.
- PHP's conversion of integer-like string keys to integer array keys is not modelled. It applies to the table and to the lookup alike, so it does not change which lookups hit.
- `GetImageSources` does not modify any node. The model holds nodes as immutable values, so this holds by construction and is not a separate contract.
- DomManipulator.ApplyEntryRules: states the per-attribute rules only when the srcset target differs from `sizes`, `class` (for the srcset rule), `width` (for the sizes rule) and `class` (for the class rule). The `sizes` and `class` collisions are stated separately by `TargetIsSizes` and `TargetIsClass`. The `width` collision is not stated: when `width` is empty, the srcset string would then become the width hint for `sizes`.
- DomManipulator.InjectNodeRules: the same restriction as `ApplyEntryRules`.
- InjectionProperties.InjectNodeKeepsKey: requires `KeyUntouched`, meaning the srcset target is not `src` and the alternative source attribute is not one the pass writes. Without that, the first pass can write the attribute the key is read from and so change the key.
- InjectionProperties.ApplyEntryKeepsKey: requires `KeyUntouched`, for the same reason.
- InjectionProperties.SecondPassOnlyAppendsClass: requires `KeyUntouched`. Otherwise the first run can change the key, and the second run may find a different entry or none.
- InjectionProperties.ClassAppendedOncePerPass: requires `KeyUntouched`, for the same reason, and that the srcset target is not `class`. With target `class`, an empty `class` first receives the srcset string; `TargetIsClass` states that case.
- InjectionProperties.IdempotentWithoutClass: requires `KeyUntouched`, for the same reason as `SecondPassOnlyAppendsClass`.
