# openLCA editor bookkeeping, modelled in Dafny

openLCA is a desktop application for life-cycle assessment built on the
Eclipse Rich Client Platform. This project models the state bookkeeping
inside six of its editor and preference classes once the widgets, files,
dialogs and foreign libraries are replaced by plain inputs:

- `shape_file_page.dfy` (module `ShapeFiles`): the shape-file page of the
  LCIA method editor. It keeps an array of sections (one per imported shape
  file; appended on import, removed by index with `System.arraycopy`) and
  links the method's input parameters to shape files through their external
  source (`getReferencedParameters`, `removeExternalSourceReferences`,
  `updateExternalSourceReferences`, the Update and remove actions and
  `AddParamAction`).
- `cloud_preference_page.dfy` (module `CloudPreferences`): the collaboration
  preference page: the list of server configurations (add, remove the
  selected ones, at most one default), the table's column texts with the
  password masked, the enable rule of the dependent controls and `performOk`.
- `editors.dfy` (module `Editors`): choosing the active workbench page with
  its fallbacks, listing editor references, `closeAll` (which spares the SQL,
  Python, start-page and log editors), `getActive` and the guard of
  `addRefresh`. The workbench is plain data: an optional workbench with an
  optional active window and an optional window array, each window with an
  optional active page and an optional page array.
- `product_system_node.dfy` (module `ProductSystemGraph`): the root node of the
  product-system graph: lookup of a process node by process id and the
  highlight flags of exchange nodes.
- `geo_setup.dfy` (module `GeoSetup`): reading a regionalisation setup from a
  JSON file that is either a serialized setup or raw GeoJSON.
- `epd_product_section.dfy` (module `EpdProducts`): the declared product of an
  EPD, created on first use with amount 1, and the amount, flow and unit
  callbacks.
- `wrappers.dfy` (module `Wrappers`): `Option`, standing for Java's nullable
  references.

Foreign collaborators become inputs. `Question.ask` is a boolean
`confirmed`. `ShapeFileUtils.isValid` and `alreadyExists` are booleans.
`importFile` and `getParameters` together are an `ImportOutcome`: the import
throws, or reading the parameters throws, or both succeed.
`Parameter.isValidName` is a function argument, and so are `closeEditors`,
`ExchangeNode.matches`, `Json.readObject` and the GeoJSON, parameter and
binding parsers. The shape files stored for a method are the set `files`.
A `UUID` is a `refId` argument.

Some helpers are not part of the source shown, so their usual openLCA
behaviour is assumed:
- `Strings.nullOrEqual`: true when both are null or both are equal.
- `Json.getObject` and `Json.getArray`: the member when it is present and of
  that kind, else null.
- `CloudConfiguration`: a class whose fields start at Java's defaults and
  whose `equals` is identity.
- `CloudPreference`: its `do...` getters read the preference store, and a
  key that was never written reads as false.

## Model

| member | source | states |
|---|---|---|
| `ShapeFiles.ShapeFilePage.constructor` | olca-app/src/org/openlca/app/editors/lcia_methods/shapefiles/ShapeFilePage.java:77-80 | one section per stored shape file, in order, each with `index` equal to its position |
| `ShapeFiles.ShapeFilePage.GetReferencedParameters` | olca-app/src/org/openlca/app/editors/lcia_methods/shapefiles/ShapeFilePage.java:297-304 | the result is exactly the set of names of input parameters whose external source is the section's shape file |
| `ShapeFiles.ShapeFilePage.Exists` | olca-app/src/org/openlca/app/editors/lcia_methods/shapefiles/ShapeFilePage.java:427-437 | true exactly when some parameter has the attribute's name, source type "SHAPE_FILE" and this shape file as external source |
| `ShapeFiles.ShapeFilePage.OtherExists` | olca-app/src/org/openlca/app/editors/lcia_methods/shapefiles/ShapeFilePage.java:439-447 | true exactly when some parameter has the attribute's name and a different (or null) external source |
| `ShapeFiles.ShapeFilePage.AddParam` | olca-app/src/org/openlca/app/editors/lcia_methods/shapefiles/ShapeFilePage.java:392-465 | each rejection (no selection, already added, name taken, invalid name) happens exactly under its condition and adds nothing; otherwise exactly one parameter is appended: linked, input, scope IMPACT_METHOD, source type "SHAPE_FILE", mean value and uniform uncertainty. Afterwards `exists` holds and the name is referenced |
| `ShapeFiles.ShapeFilePage.RunImport` | olca-app/src/org/openlca/app/editors/lcia_methods/shapefiles/ShapeFilePage.java:147-171 | an invalid attribute name deletes the imported file again and returns nothing. Otherwise the file is stored and a fresh array holds the old sections followed by one new section, whose `index` is the old length; the attributes are returned. Index-position agreement is preserved |
| `ShapeFiles.ShapeFilePage.CheckRunImport` | olca-app/src/org/openlca/app/editors/lcia_methods/shapefiles/ShapeFilePage.java:127-145 | an invalid file, a taken name or a throwing import adds no section and returns an empty list. A throwing parameter read leaves the stored file behind. Otherwise the result of `runImport`. The stored files after the call and the returned list are summed up by `FilesAfterImport` and `ImportAccepted`, and no section is added unless the import is accepted |
| `ShapeFiles.ShapeFilePage.Delete` | olca-app/src/org/openlca/app/editors/lcia_methods/shapefiles/ShapeFilePage.java:241-258 | an unforced, unconfirmed delete returns false and changes neither sections nor files. Otherwise the file is deleted and the entry at the stored `index` is removed: earlier entries keep their positions, later ones shift down, and no `index` is renumbered. It throws exactly when `index` is past the last position |
| `ShapeFiles.ArrayCopy` | olca-app/src/org/openlca/app/editors/lcia_methods/shapefiles/ShapeFilePage.java:250-253 | `System.arraycopy` between two arrays: the target positions in the copied range take the source entries in order, and every other target entry keeps its value |
| `ShapeFiles.RemoveAtMembers` | olca-app/src/org/openlca/app/editors/lcia_methods/shapefiles/ShapeFilePage.java:248-255 | the two array copies leave one entry fewer, and in a list without duplicates they remove exactly the entry at that position |
| `ShapeFiles.ShapeFilePage.RemoveExternalSourceReferences` | olca-app/src/org/openlca/app/editors/lcia_methods/shapefiles/ShapeFilePage.java:260-270 | exactly the input parameters linked to the file lose their external source; every other parameter is unchanged; nothing stays linked; links to other files are unchanged; the editor is dirty |
| `ShapeFiles.UnlinkReferences` | olca-app/src/org/openlca/app/editors/lcia_methods/shapefiles/ShapeFilePage.java:260-267 | after unlinking, no name is linked to the file |
| `ShapeFiles.UnlinkKeepsOtherLinks` | olca-app/src/org/openlca/app/editors/lcia_methods/shapefiles/ShapeFilePage.java:260-267 | unlinking one file leaves the names linked to every other file unchanged |
| `ShapeFiles.ShapeFilePage.UpdateExternalSourceReferences` | olca-app/src/org/openlca/app/editors/lcia_methods/shapefiles/ShapeFilePage.java:276-295 | a linked input parameter not in `stillLinked` is unlinked. One in it that has a new range takes the mean and a uniform uncertainty. All others are untouched. The linked names become the old ones intersected with `stillLinked`; links to other files are unchanged |
| `ShapeFiles.RelinkReferences` | olca-app/src/org/openlca/app/editors/lcia_methods/shapefiles/ShapeFilePage.java:276-293 | after the update, the names linked to the file are exactly the old linked names that are in `stillLinked` |
| `ShapeFiles.RelinkKeepsOtherLinks` | olca-app/src/org/openlca/app/editors/lcia_methods/shapefiles/ShapeFilePage.java:276-293 | the update of one file's links leaves the names linked to every other file unchanged |
| `ShapeFiles.ShapeFilePage.DeleteAction` | olca-app/src/org/openlca/app/editors/lcia_methods/shapefiles/ShapeFilePage.java:194-199 | a declined delete changes nothing, including the dirty flag. A completed delete removes the entry at the stored index and the file, unlinks exactly the parameters linked to the file, marks the editor dirty and saves once. A delete that throws removes the file but keeps the sections and parameters, and does not save |
| `ShapeFiles.ShapeFilePage.Reimport` | olca-app/src/org/openlca/app/editors/lcia_methods/shapefiles/ShapeFilePage.java:214-215 | the forced delete throws exactly when the stale `index` is past the end, leaving the sections and removing the file. Otherwise the sections lose the entry at that index and gain one at the end only for an accepted import; the files and the returned attributes are what `checkRunImport` leaves |
| `ShapeFiles.ShapeFilePage.UpdateAction` | olca-app/src/org/openlca/app/editors/lcia_methods/shapefiles/ShapeFilePage.java:208-225 | without a chosen file nothing changes. When the forced delete throws, the file is gone and sections and parameters stay. Otherwise the stale-index delete and `checkRunImport` decide the sections and files, with a new section at the end when the import is accepted. The parameters become the update with `stillLinked` equal to the previously linked names and the map of the last imported attribute per linked name; the method is saved once. In every case the set of names linked to the file is unchanged |
| `ShapeFiles.UpdateNeverUnlinks` | olca-app/src/org/openlca/app/editors/lcia_methods/shapefiles/ShapeFilePage.java:213-223 | when `stillLinked` contains every currently linked name, as the Update action builds it, the update unlinks nothing |
| `ShapeFiles.NameToParam` | olca-app/src/org/openlca/app/editors/lcia_methods/shapefiles/ShapeFilePage.java:217-222 | every key is a previously linked name and maps to an imported attribute of that name |
| `ShapeFiles.NameToParamEntries` | olca-app/src/org/openlca/app/editors/lcia_methods/shapefiles/ShapeFilePage.java:217-221 | the map holds exactly the previously linked names found among the imported attributes, each mapped to the last attribute of that name |
| `ShapeFiles.UpdateKeepsDroppedLink` | olca-app/src/org/openlca/app/editors/lcia_methods/shapefiles/ShapeFilePage.java:213-223 | a parameter whose attribute is missing from the new file stays linked with the set the code builds, and is unlinked with the intended one |
| `ShapeFiles.UpdateKeepsLinkOfDroppedAttribute` | olca-app/src/org/openlca/app/editors/lcia_methods/shapefiles/ShapeFilePage.java:208-225 | on a page where "x" is linked to "a.shp", an update with a file that provides only "y" leaves "x" linked as written and unlinks it in the corrected action |
| `ShapeFiles.ShapeFilePage.UpdateActionIntended` | olca-app/src/org/openlca/app/editors/lcia_methods/shapefiles/ShapeFilePage.java:208-225 | corrected Update action, following the comment at lines 272-275: same sections, files and save as `UpdateAction`, but `stillLinked` is the previously linked names that the new file still provides, so afterwards exactly those stay linked |
| `ShapeFiles.AddProvided` | olca-app/src/org/openlca/app/editors/lcia_methods/shapefiles/ShapeFilePage.java:216-222 | the loop adds to the starting set exactly the previously linked names among the imported attributes, and builds the name-to-attribute map of `NameToParam`. The Update action starts from the names linked now; the corrected action starts from the empty set |
| `ShapeFiles.UpdateRefreshesRange` | olca-app/src/org/openlca/app/editors/lcia_methods/shapefiles/ShapeFilePage.java:217-223 | a parameter "x" linked to the file, re-imported with range [2, 4], stays linked and takes value 3 and a uniform distribution over [2, 4] |
| `ShapeFiles.ShapeFilePage.PositionOf` | olca-app/src/org/openlca/app/editors/lcia_methods/shapefiles/ShapeFilePage.java:241-258 | the first position holding the section, or -1 exactly when it is absent |
| `ShapeFiles.ShapeFilePage.DeleteSection` | olca-app/src/org/openlca/app/editors/lcia_methods/shapefiles/ShapeFilePage.java:241-258 | corrected delete: never throws. It removes the section's own entry, found by identity. In a list without duplicates, afterwards the section is gone and every other section remains |
| `ShapeFiles.StaleIndexRemovesWrongEntry` | olca-app/src/org/openlca/app/editors/lcia_methods/shapefiles/ShapeFilePage.java:248-255 | with sections a, b, c, deleting a and then b as written leaves b's entry and loses c's |
| `ShapeFiles.IdentityDeleteKeepsRightEntry` | olca-app/src/org/openlca/app/editors/lcia_methods/shapefiles/ShapeFilePage.java:241-258 | with sections a, b, c, deleting a and then b by identity leaves c |
| `ShapeFiles.StaleIndexLeavesLinks` | olca-app/src/org/openlca/app/editors/lcia_methods/shapefiles/ShapeFilePage.java:194-199 | with sections a, b, deleting a and then b throws: b's file is gone, but a parameter stays linked to it |
| `CloudPreferences.CloudPreferencePage.constructor` | olca-app/src/org/openlca/app/cloud/ui/preferences/CloudPreferencePage.java:38-83 | the page starts with the stored configurations and each check box showing its stored preference (false when never written), and the controls already follow the enable box |
| `CloudPreferences.CloudPreferencePage.CheckEnabled` | olca-app/src/org/openlca/app/cloud/ui/preferences/CloudPreferencePage.java:86-91 | the library, reference and comment boxes and the configuration table are enabled exactly when the enable box is selected |
| `CloudPreferences.CloudPreferencePage.OnEnableSelected` | olca-app/src/org/openlca/app/cloud/ui/preferences/CloudPreferencePage.java:61-66 | after the enable box changes, the dependent controls follow its new state |
| `CloudPreferences.CloudPreferencePage.PerformOk` | olca-app/src/org/openlca/app/cloud/ui/preferences/CloudPreferencePage.java:93-102 | the four box states are stored under their four keys, so a page opened afterwards would show the same states; the configuration list is handed to the store, and the result is true |
| `CloudPreferences.CloudPreferencePage.DefaultChanged` | olca-app/src/org/openlca/app/cloud/ui/preferences/CloudPreferencePage.java:116-121 | every other configuration in the list stops being the default; `conf` itself and every url, user and password are unchanged; at most one configuration is the default |
| `CloudPreferences.CloudPreferencePage.OnAdd` | olca-app/src/org/openlca/app/cloud/ui/preferences/CloudPreferencePage.java:135-141 | exactly one new configuration with url "newServer" is appended at the end, and the existing entries are unchanged |
| `CloudPreferences.CloudPreferencePage.OnRemove` | olca-app/src/org/openlca/app/cloud/ui/preferences/CloudPreferencePage.java:143-149 | the first occurrence of each selected configuration is removed, in selection order. Unselected ones keep their relative order. In a list without duplicates, exactly the unselected configurations remain |
| `CloudPreferences.FirstIndex` | olca-app/src/org/openlca/app/cloud/ui/preferences/CloudPreferencePage.java:147 | a position holding the element, with no earlier position holding it |
| `CloudPreferences.RemoveFirst` | olca-app/src/org/openlca/app/cloud/ui/preferences/CloudPreferencePage.java:147 | `List.remove` takes one element out when an equal one is present and changes nothing when there is none |
| `CloudPreferences.RemoveFirstAtFirstIndex` | olca-app/src/org/openlca/app/cloud/ui/preferences/CloudPreferencePage.java:147 | the element taken out is the first one equal to the argument: the result is the elements before it followed by the elements after it |
| `CloudPreferences.RemoveEach` | olca-app/src/org/openlca/app/cloud/ui/preferences/CloudPreferencePage.java:145-147 | one `remove` per selected configuration, in selection order: the list loses at most one element per selected entry |
| `CloudPreferences.RemoveFirstKeepsOrder` | olca-app/src/org/openlca/app/cloud/ui/preferences/CloudPreferencePage.java:147 | removing an element leaves the order of all elements that are not equal to it unchanged |
| `CloudPreferences.RemoveEachKeepsOrder` | olca-app/src/org/openlca/app/cloud/ui/preferences/CloudPreferencePage.java:145-147 | removing the selected elements one by one leaves the unselected ones in their relative order |
| `CloudPreferences.RemoveFirstMembers` | olca-app/src/org/openlca/app/cloud/ui/preferences/CloudPreferencePage.java:147 | in a list without duplicates, `remove` takes out exactly that element and keeps the list free of duplicates |
| `CloudPreferences.RemoveEachMembers` | olca-app/src/org/openlca/app/cloud/ui/preferences/CloudPreferencePage.java:145-147 | in a list without duplicates, afterwards exactly the unselected elements remain |
| `CloudPreferences.Mask` | olca-app/src/org/openlca/app/cloud/ui/preferences/CloudPreferencePage.java:164-165 | the masked password has the password's length. Each character becomes U+2022, except the line terminators, which the regular expression `.` does not match |
| `CloudPreferences.MaskRevealsOnlyLayout` | olca-app/src/org/openlca/app/cloud/ui/preferences/CloudPreferencePage.java:164-165 | two passwords have the same mask exactly when they have the same length and the same line terminators at the same places |
| `CloudPreferences.ColumnText` | olca-app/src/org/openlca/app/cloud/ui/preferences/CloudPreferencePage.java:155-168 | column 0 shows the url and column 1 the user. Column 2 shows the password masked by `Mask`; a null password throws. Every other column has null text |
| `CloudPreferences.ColumnImage` | olca-app/src/org/openlca/app/cloud/ui/preferences/CloudPreferencePage.java:170-176 | only column 3 has an image, and it reflects `isDefault` |
| `Editors.PreferredOrFirst` | olca-app/src/org/openlca/app/editors/Editors.java:132-146 | the preferred element when present; otherwise the first element of a non-null, non-empty array; otherwise null |
| `Editors.GetActivePage` | olca-app/src/org/openlca/app/editors/Editors.java:128-146 | null without a workbench, or with neither an active window nor any window. The active window is preferred over the first window. In that window the active page is preferred, then the first page. The result is null exactly when that window has neither |
| `Editors.GetReferences` | olca-app/src/org/openlca/app/editors/Editors.java:119-126 | the editor references of the active page, and an empty array when there is no page |
| `Editors.GetActive` | olca-app/src/org/openlca/app/editors/Editors.java:98-105 | the active page's active editor; without a page a NullPointerException, which the handler does not catch |
| `Editors.Closable` | olca-app/src/org/openlca/app/editors/Editors.java:56-71 | no more references are collected than given, and none of them belongs to an SQL, Python, start-page or log editor; `ClosableMember` states that all others are collected |
| `Editors.ClosableMember` | olca-app/src/org/openlca/app/editors/Editors.java:56-71 | the collected references are exactly those whose editor is not an SQL, Python, start-page or log editor |
| `Editors.CloseAll` | olca-app/src/org/openlca/app/editors/Editors.java:53-80 | `closeEditors` is not called, and the result is true, exactly when every reference is to be kept open. Otherwise it gets exactly the other references, in order, and the result is what `closeEditors` returns, or false when it throws |
| `Editors.AddRefresh` | olca-app/src/org/openlca/app/editors/Editors.java:37-48 | nothing happens when the form or the editor is null; otherwise one reload action for the editor's model joins the tool-bar |
| `ProductSystemGraph.ProductSystemNode.GetProcessNode` | olca-app/src/org/openlca/app/editors/graphical/model/ProductSystemNode.java:29-34 | the first child whose process has the id, or null exactly when no child has it |
| `ProductSystemGraph.ProductSystemNode.HighlightMatchingExchanges` | olca-app/src/org/openlca/app/editors/graphical/model/ProductSystemNode.java:41-53 | a null node to match changes nothing. Otherwise an exchange node's flag becomes its old value or-ed with "it matches and sits in a visible, non-minimised process node"; no flag is cleared |
| `ProductSystemGraph.ProductSystemNode.RemoveHighlighting` | olca-app/src/org/openlca/app/editors/graphical/model/ProductSystemNode.java:55-62 | flags are only cleared, and only under the first child of a shown process node. All of those are cleared unless a shown node has no child, in which case `get(0)` throws |
| `ProductSystemGraph.ProductSystemNode.HiddenNodeUntouched` | olca-app/src/org/openlca/app/editors/graphical/model/ProductSystemNode.java:44-60 | in a tree, the exchange nodes of a hidden or minimised process node are neither highlighted nor cleared |
| `GeoSetup.Read` | olca-app/src/org/openlca/app/editors/lcia/geo/Setup.java:40-53 | null exactly for a null file or unreadable JSON. With both "setup" and "features" the serialized path is taken. Otherwise the features are parsed from the whole object, the params are collected from them and there are no bindings |
| `GeoSetup.FromSerialized` | olca-app/src/org/openlca/app/editors/lcia/geo/Setup.java:55-86 | a missing "features" object gives the empty collection, and a missing "setup" object gives no params and no bindings. A missing "properties" or "bindings" array empties only that list; otherwise the list is collected from its array |
| `GeoSetup.Collect` | olca-app/src/org/openlca/app/editors/lcia/geo/Setup.java:67-82 | the stream chain yields at most one value per array element; `CollectAt`, `CollectDrops` and `CollectMember` state which and in what order |
| `GeoSetup.CollectAppend` | olca-app/src/org/openlca/app/editors/lcia/geo/Setup.java:67-73 | collecting a concatenation is the concatenation of the collected parts, so results keep array order |
| `GeoSetup.CollectAt` | olca-app/src/org/openlca/app/editors/lcia/geo/Setup.java:67-73 | at every element the results of the earlier elements come first, then the element's own, then those of later elements |
| `GeoSetup.CollectDrops` | olca-app/src/org/openlca/app/editors/lcia/geo/Setup.java:77-83 | a non-object element, or one whose parse is null, contributes nothing |
| `GeoSetup.CollectMember` | olca-app/src/org/openlca/app/editors/lcia/geo/Setup.java:77-83 | a value is in the result exactly when some object element parses to it |
| `EpdProducts.EpdProductSection.Product` | olca-app/src/org/openlca/app/editors/epds/EpdProductSection.java:52-59 | an existing product is returned unchanged. Otherwise a fresh product with amount 1 and no flow, property or unit is stored and returned, so later calls return that same object |
| `EpdProducts.EpdProductSection.OnAmountChanged` | olca-app/src/org/openlca/app/editors/epds/EpdProductSection.java:29-32 | the product takes the amount; an existing product keeps its flow, property and unit, and one created on the way has none of them; the editor is dirty and no event is emitted |
| `EpdProducts.EpdProductSection.OnFlowChanged` | olca-app/src/org/openlca/app/editors/epds/EpdProductSection.java:38-49 | the product takes the flow with its reference property and reference unit (both null for a null flow), keeps its amount, "product.changed" is emitted and the editor is dirty |
| `EpdProducts.EpdProductSection.OnUnitSelected` | olca-app/src/org/openlca/app/editors/epds/EpdProductSection.java:69-76 | the product takes the property and unit of the selected item; an existing product keeps its flow and amount, and one created on the way has no flow and amount 1; "unit.changed" is emitted and the editor is dirty |

## Findings

| source | as written | input that shows it | evidently intended | confidence | as-written member | corrected member |
|---|---|---|---|---|---|---|
| olca-app/src/org/openlca/app/editors/lcia_methods/shapefiles/ShapeFilePage.java:248-255 | `delete` removes the entry at the section's stored `index`, which is not renumbered after an earlier section is deleted | sections a, b, c: delete a, then delete b. The entry of c is removed and b's stays. With only a and b, the second delete throws after deleting b's file, and the parameters stay linked to it | remove the section's own entry | high; not executed | `ShapeFiles.StaleIndexRemovesWrongEntry` | `ShapeFiles.ShapeFilePage.DeleteSection` |
| olca-app/src/org/openlca/app/editors/lcia_methods/shapefiles/ShapeFilePage.java:213-223 | the Update action starts `stillLinked` from the names linked now, which include every previously linked name, so `updateExternalSourceReferences` never unlinks | parameter "x" linked to "a.shp"; the re-imported file has no attribute "x"; "x" stays linked | `stillLinked` holds the previously linked names that the new file still provides (the comment at lines 272-275) | medium; not executed | `ShapeFiles.UpdateNeverUnlinks` | `ShapeFiles.ShapeFilePage.UpdateActionIntended` |

`ShapeFiles.ShapeFilePage.Delete` and `ShapeFiles.ShapeFilePage.UpdateAction`
model both places as written; the remove and Update actions use them.
`ShapeFiles.StaleIndexLeavesLinks`, `ShapeFiles.UpdateKeepsDroppedLink` and
`ShapeFiles.UpdateKeepsLinkOfDroppedAttribute` are further witnesses.

## Left out

- Widget construction, layout, reflow, table viewers, labels, images, the map action (`ShowMapAction`), the shape-file parameter table and the location-evaluation job: these are toolkit calls with no domain state.
- Dialogs (`Question.ask`, `Error.showBox`, `Info.showBox`): answers are boolean inputs and shown messages become result values (`AddResult`, `DeleteResult`).
- File system and foreign services (`ShapeFileUtils`, `FileChooser`, `Desktop.open`, `Json.readObject`, `FeatureCollection.fromJson`, `GeoParam`, `GeoFlowBinding`): these are inputs; the stored shape files are only a set of names.
- `editor.getParameterSupport().evaluate()`, `section.dispose()`, viewer `setInput`/`refresh` and the editor's `setActivePage`: these are foreign calls with no effect on the modelled state.
- Floating point: `(min + max) / 2` and the uniform uncertainty use exact reals, and `Double.toString` is not modelled.
- Parameters are values in a sequence. Sharing of `Parameter` objects with other parts of the application is not captured.
- `Editors.open` (dispatch through a `UIJob`), `Editors.callSaveActive` and `Editors.close`: these are single foreign calls wrapped in catch-and-report, with no state of their own.
- `Editors.GetActive`: the `ClassCastException` handler is not modelled. The generic cast is unchecked, so the exception can only arise at the caller's assignment, never inside the method.
- The editor's save (`doSave`) is counted in `saves`; what saving does to the editor's dirty flag is not part of this model.
- Preference-store and `CloudConfigurations.save` persistence: the model records the keys written and the list handed over.
- `CloudPreferences.CloudPreferencePage.DefaultChanged`: models the callback only. The `BooleanModifier` that sets `conf.isDefault` before calling it is not part of this model.
- `CloudPreferences.Mask`: strings are sequences of Unicode scalar values. A password's length is counted in code points, not in Java's UTF-16 units.
- `ProductSystemGraph.ProductSystemNode.RemoveHighlighting`: when `get(0)` throws, the contract does not say which earlier nodes were already cleared. It says only that nothing outside the cleared set changed and no flag was set.
- `ProductSystemGraph.ProductSystemNode.HiddenNodeUntouched`: holds only for a tree, where no exchange node belongs to two process nodes. `getExchangeNodes()` and the first child's children are kept as two separate lists.
- `ProductSystemNode.refreshChildren`, `getName`, `getProductSystem` and the link search map: these are delegation to the editor and the edit part.
- The unit combo's refill on "product.changed" (`UnitHandler.update`): UI only.
- ReportViewer.java, ValidationDialog.java, ValidationResultView.java and DatabaseElement.java are not part of this model. They are front-ends to an embedded browser, the validation engine and the navigation tree.
