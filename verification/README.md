# Stirling-PDF endpoint registry and image-removal file name, in Dafny

This project models two pieces of Stirling-PDF.

**The endpoint feature-flag registry** (`EndpointConfiguration`). It keeps two maps:

- `endpointStatuses` maps an endpoint name to an enabled flag. A name without an entry counts as enabled.
- `endpointGroups` maps a group name to the set of endpoint names it bundles.

At construction the registry fills twelve startup groups. It then processes the administrator's removal lists:

- first, "Calibre" is appended to the group list when the book and HTML formats are not installed;
- then `disableEndpoint` is called on every trimmed endpoint name on the endpoint list;
- then `disableEndpoint` is called on every member of every trimmed group name on the group list.

The registry is the class `EndpointConfig.EndpointConfiguration`. Its fields are a `map<string, bool>` and a `map<string, set<string>>`, and its methods reassign them.

- `EnableEndpoint` and `AddEndpointToGroup` state their new map directly, as one updated entry.
- The other methods are proved against value-level reference definitions in module `Endpoints`:
  - `DisabledAll` and `EnabledAll` describe disabling or enabling a whole set of names.
  - `MergedGroups` describes merging one group map into another.
  - `WithEndpoints` describes adding a list to one group.
- `Initialize` is proved against `StartupTable.StartupGroups`.

Module `StartupTable` holds the twelve startup lists, copied verbatim and in source order. It defines the group map those lists build and proves what that map contains.

Three consequences of the code are proved:

- `disableEndpoint` never adds an entry.
- `initialize` fills only the groups.
- So after construction every endpoint still reports enabled, whatever the removal lists say (`EndpointConfiguration.Create`).

**The download name of the image-removal endpoint.** It is `name.replaceFirst("[.][^.]+$", "") + "_removed_images.pdf"`, modelled as the pure function `ImageRemoval.RemovedImagesFileName`. The one regular expression is spelled out as a predicate:

- a `.`;
- then one or more characters other than `.`;
- running to the end of the name.

Java's `String.trim`, used on every name of the removal lists, is modelled in `JavaStrings.Trim`: it strips characters up to U+0020 from both ends.

Files:

- `wrappers.dfy`: `Option` and `Result`.
- `java_strings.dfy`: `String.trim`.
- `endpoints.dfy`: the value-level definitions and their lemmas.
- `startup_table.dfy`: the startup groups.
- `endpoint_configuration.dfy`: the class.
- `image_removal.dfy`: the file name.

## Model

| member | source | states |
|---|---|---|
| EndpointConfig.EndpointConfiguration.Init | src/main/java/stirling/software/SPDF/config/EndpointConfiguration.java:22-35 | A new registry has no status entries and exactly the startup groups. |
| EndpointConfig.EndpointConfiguration.Create | src/main/java/stirling/software/SPDF/config/EndpointConfiguration.java:30-37 | The Java constructor fails exactly when the group list is null and book formats are missing. The caller's group list ends up with "Calibre" appended exactly when formats are missing and it is not null. On success the groups are the startup table, the status map is empty, and every endpoint path reports enabled. |
| EndpointConfig.EndpointConfiguration.EnableEndpoint | src/main/java/stirling/software/SPDF/config/EndpointConfiguration.java:39-41 | The endpoint is mapped to true and every other entry is unchanged. Afterwards `/endpoint` reports enabled. |
| EndpointConfig.EndpointConfiguration.DisableEndpoint | src/main/java/stirling/software/SPDF/config/EndpointConfiguration.java:43-48 | The new map is the reference disable of `{endpoint}`: same keys, a true entry turned false, nothing added. When the endpoint was already disabled (false or absent) the map is unchanged. Otherwise `/endpoint` reports disabled afterwards. |
| EndpointConfig.EndpointConfiguration.IsAlreadyDisabled | src/main/java/stirling/software/SPDF/config/EndpointConfiguration.java:50-52 | True exactly when disabling the name would leave the status map unchanged, which covers both a false entry and a missing one. |
| EndpointConfig.EndpointConfiguration.IsEndpointEnabled | src/main/java/stirling/software/SPDF/config/EndpointConfiguration.java:54-57 | False exactly when some false entry is addressed by the path: the path is that name behind one `/`, or the name itself when the name does not start with `/`. With no false entry, every path is enabled. |
| EndpointConfig.EndpointConfiguration.AddEndpointToGroup | src/main/java/stirling/software/SPDF/config/EndpointConfiguration.java:59-61 | The group holds its old members, or none if it was missing, plus the endpoint. Other groups are unchanged. Adding a present member changes nothing. |
| EndpointConfig.EndpointConfiguration.EnableGroup | src/main/java/stirling/software/SPDF/config/EndpointConfiguration.java:63-70 | The statuses are the reference enable of the group's members, whatever order the set iteration takes. An unknown group changes nothing. |
| EndpointConfig.EndpointConfiguration.DisableGroup | src/main/java/stirling/software/SPDF/config/EndpointConfiguration.java:72-79 | The statuses are the reference disable of the group's members, whatever order the set iteration takes. An unknown group changes nothing. |
| EndpointConfig.EndpointConfiguration.Initialize | src/main/java/stirling/software/SPDF/config/EndpointConfiguration.java:81-222 | The group map becomes the merge of the groups it held with the startup table. The statuses are not touched. |
| EndpointConfig.EndpointConfiguration.AddEndpointsToGroup | src/main/java/stirling/software/SPDF/config/EndpointConfiguration.java:224-228 | An empty list leaves the map unchanged and does not create the group. A non-empty list creates the group if needed and adds every listed endpoint to it. |
| EndpointConfig.EndpointConfiguration.ProcessEnvironmentConfigs | src/main/java/stirling/software/SPDF/config/EndpointConfiguration.java:230-238 | The call throws exactly when book formats are missing and the group list is null, and then changes nothing. Otherwise "Calibre" is appended to the group list exactly when formats are missing. `disableEndpoint` is applied to the trimmed endpoint names, then to the members of the trimmed group names. A null list is skipped. |
| EndpointConfig.EndpointConfiguration.DisableEndpoints | src/main/java/stirling/software/SPDF/config/EndpointConfiguration.java:240-246 | The statuses are the reference disable of the set of trimmed names on the list. A null list changes nothing. |
| EndpointConfig.EndpointConfiguration.DisableGroups | src/main/java/stirling/software/SPDF/config/EndpointConfiguration.java:248-254 | The statuses are the reference disable of every member of every known group whose trimmed name is on the list. A null list changes nothing. |
| Endpoints.DisabledAll | src/main/java/stirling/software/SPDF/config/EndpointConfiguration.java:43-52 | Disabling a set of names keeps the key set. Each named entry becomes false and every other entry keeps its value. |
| Endpoints.EnabledAll | src/main/java/stirling/software/SPDF/config/EndpointConfiguration.java:39-41 | Enabling a set of names adds exactly those names as keys. Each of them becomes true and every other entry keeps its value. |
| Endpoints.MergedGroups | src/main/java/stirling/software/SPDF/config/EndpointConfiguration.java:59-61 | A merge loses nothing: every group of either map is kept, with all the members it had there. |
| Endpoints.MergedByMembers | src/main/java/stirling/software/SPDF/config/EndpointConfiguration.java:59-61 | A map with the keys of both maps and the members of both in every group is their merge. |
| Endpoints.MergedIntoNothing | src/main/java/stirling/software/SPDF/config/EndpointConfiguration.java:23 | Merging into the initially empty group map yields the merged table itself. |
| Endpoints.DisabledAllCompose | src/main/java/stirling/software/SPDF/config/EndpointConfiguration.java:240-246 | Disabling one set and then another is the same as disabling their union. |
| Endpoints.DisablingCommutes | src/main/java/stirling/software/SPDF/config/EndpointConfiguration.java:236-237 | Disabling endpoints before groups gives the same statuses as the reverse order. |
| Endpoints.DisabledNone | src/main/java/stirling/software/SPDF/config/EndpointConfiguration.java:73-74 | Disabling no name changes nothing, as with an unknown group or a null list. |
| Endpoints.EnabledAllAddOne | src/main/java/stirling/software/SPDF/config/EndpointConfiguration.java:66-68 | Enabling one more endpoint after a set is enabling the set with that endpoint added. |
| Endpoints.EnabledNone | src/main/java/stirling/software/SPDF/config/EndpointConfiguration.java:64-65 | Enabling no name changes nothing, as with an unknown group. |
| Endpoints.EnableInOrderIsSetwise | src/main/java/stirling/software/SPDF/config/EndpointConfiguration.java:66-68 | Enabling names one at a time in any order yields the reference enable of the set of those names. |
| Endpoints.DisableInOrderIsSetwise | src/main/java/stirling/software/SPDF/config/EndpointConfiguration.java:75-77 | Disabling names one at a time in any order yields the reference disable of the set of those names. |
| Endpoints.TrimmedNamesSnoc | src/main/java/stirling/software/SPDF/config/EndpointConfiguration.java:242-243 | The trimmed names of a list prefix one longer gain exactly the trim of the new element. |
| Endpoints.MembersOfGroupsAddOne | src/main/java/stirling/software/SPDF/config/EndpointConfiguration.java:250-251 | One more group name on the removal list adds exactly that group's members, or none for an unknown group. |
| Endpoints.WithEndpointsMembers | src/main/java/stirling/software/SPDF/config/EndpointConfiguration.java:224-228 | Adding a list to one group gives that group the listed endpoints. Every other group keeps its members. |
| StartupTable.UnlistedGroup | src/main/java/stirling/software/SPDF/config/EndpointConfiguration.java:81-222 | A name that is not one of the twelve startup groups receives no endpoint at startup. |
| StartupTable.InitializedNames | src/main/java/stirling/software/SPDF/config/EndpointConfiguration.java:81-222 | `initialize` adds exactly the twelve startup group names to the keys it finds. |
| StartupTable.InitializedMembers | src/main/java/stirling/software/SPDF/config/EndpointConfiguration.java:81-222 | After `initialize` every group holds its previous members plus the union of the lists filed under its name. |
| StartupTable.StartupGroupNames | src/main/java/stirling/software/SPDF/config/EndpointConfiguration.java:81-222 | The startup table has exactly the twelve group names. |
| StartupTable.StartupGroupMembers | src/main/java/stirling/software/SPDF/config/EndpointConfiguration.java:81-222 | Each startup group holds exactly the endpoints listed for it. |
| StartupTable.InitializedIsMerge | src/main/java/stirling/software/SPDF/config/EndpointConfiguration.java:81-222 | Running `initialize` on any group map merges the startup table into it. |
| StartupTable.StartupNamesDistinct | src/main/java/stirling/software/SPDF/config/EndpointConfiguration.java:81-221 | The twelve startup group names are pairwise distinct. |
| StartupTable.StartupGroupCount | src/main/java/stirling/software/SPDF/config/EndpointConfiguration.java:81-222 | After startup there are exactly twelve groups. |
| StartupTable.StartupCalibreAndOpenCv | src/main/java/stirling/software/SPDF/config/EndpointConfiguration.java:165-170 | Calibre is {book-to-pdf, pdf-to-book}. OpenCV is {extract-image-scans, remove-blanks}. |
| JavaStrings.Trim | src/main/java/stirling/software/SPDF/config/EndpointConfiguration.java:243 | The result is a contiguous piece of the input with only blanks (code at most U+0020) cut from either end. It neither starts nor ends with a blank. It is empty exactly when the input is all blanks. |
| JavaStrings.TrimKeepsTrimmed | src/main/java/stirling/software/SPDF/config/EndpointConfiguration.java:251 | A name with no blank at either end is its own trim. |
| JavaStrings.TrimIdempotent | src/main/java/stirling/software/SPDF/config/EndpointConfiguration.java:251 | Trimming twice is trimming once. |
| ImageRemoval.ExtensionAtUnique | src/main/java/stirling/software/SPDF/controller/api/PdfImageRemovalController.java:49 | The pattern `[.][^.]+$` can match at one position at most, so `replaceFirst` removes that match or nothing. |
| ImageRemoval.StripExtension | src/main/java/stirling/software/SPDF/controller/api/PdfImageRemovalController.java:49 | The result is a prefix of the name. It differs from the name exactly when the cut-off part is one match of the pattern: a `.`, then one or more non-`.` characters, to the end. When there is no match the name is returned whole. |
| ImageRemoval.RemovedImagesFileName | src/main/java/stirling/software/SPDF/controller/api/PdfImageRemovalController.java:48-49 | The name always ends with `_removed_images.pdf`. What precedes the suffix is a prefix of the original name. It is the whole name exactly when the pattern matches nowhere. Otherwise a match of the pattern follows it. |
| ImageRemoval.NoDotKeepsName | src/main/java/stirling/software/SPDF/controller/api/PdfImageRemovalController.java:49 | A name without `.` is kept whole before the suffix. |
| ImageRemoval.OnlyFinalExtensionRemoved | src/main/java/stirling/software/SPDF/controller/api/PdfImageRemovalController.java:49 | For `stem.ext` with a non-empty, dot-free `ext`, exactly `.ext` is removed, whatever dots `stem` contains. |
| ImageRemoval.InnerDotsKept | src/main/java/stirling/software/SPDF/controller/api/PdfImageRemovalController.java:49 | `a.b.c` becomes `a.b_removed_images.pdf`. |
| ImageRemoval.TrailingDotKept | src/main/java/stirling/software/SPDF/controller/api/PdfImageRemovalController.java:49 | A name ending in a bare `.` is not stripped. |
| ImageRemoval.ExtensionOnlyName | src/main/java/stirling/software/SPDF/controller/api/PdfImageRemovalController.java:49 | A name that is only an extension, such as `.pdf`, becomes just `_removed_images.pdf`. |

## Left out

- Spring wiring is not modelled: the service and dependency annotations, the autowiring and the qualifier. The constructor takes the format flag and the two removal lists as plain parameters in place of `ApplicationProperties`. A null list is `None`.
- The `ConcurrentHashMap` fields are plain Dafny maps. The model is sequential, so concurrent callers are not modelled.
- The log line of `disableEndpoint` is not modelled.
- `List.add` on an unmodifiable group list would throw. This is not modelled.
- The list is a value, not a reference. The in-place append is modelled by returning the extended list: `ProcessEnvironmentConfigs` returns it in `EnvironmentOutcome.Processed`, and `Create` returns it as `groupsAfter`. Aliasing of that list with `ApplicationProperties` is not modelled.
- `EnableGroup` and `DisableGroup` take members in an order the model leaves open (`:|`). The contracts are order-independent, so no particular iteration order is modelled.
- Null arguments to the public methods, such as a null endpoint name or a null element in a removal list, are not modelled. Strings are Dafny strings.
- The rest of `removeImages` is not modelled: loading and saving the PDF, the image-removal service and the web response are I/O. A null original file name is not modelled.
- The general Java regular-expression engine is not modelled, only the one pattern `[.][^.]+$`. Java's `$` may also match before a final line terminator. Such a terminator is itself a non-`.` character, so the match and its start are the same either way, and the model does not treat terminators specially.
