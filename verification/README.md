# A verified model of webdar's configuration store and page tree

webdar is a web interface to the dar backup tool. This project models, in Dafny, the parts of it
whose correctness is not visible from any one function.

- **The configuration store and its clients** (`Json`, `ConfigTable`, `StoreJson`, `Bibliotheque`,
  `StoreLaws`, `LoadLaws`, `Components`, `SavedComponents`, `UsingSets`, `MentionLaws`, `GuichetProtocol`,
  `GuichetLaws`, `Session`, `SessionLaws`, `Guichet`). The store maps a
  category and a name to a JSON configuration and to the configurations that use it, and keeps the
  locks that user interface objects hold. The calls edit a dependency graph in place, roll back, and
  search it for cycles. Guichets lock a configuration, load it, release it and take it again each time
  the store announces a change. The components of a guichet save names of stored configurations, and
  declare them as dependencies, all classes but one all of them.
- **The tree of nodes that builds a page** (`Forest`, `Rendering`, `RenderPass`, `Adoption`, `Runs`,
  `Paths`, `Fields`, `BodyBuilder`). Nodes keep the adoption relation in four places, signal their changes
  to the nodes above them up to the first hidden one, and keep the last part they produced. The root
  renders again until nothing has changed, no longer with the POST method after the first round.
- **Smaller algorithms** (`Tools`, `Chemin`, `Base64`, `SliceName`, `InputUnit`, `DynamicTable`,
  `Aiguille`): paths and identifiers, base64, slice names, the largest dividing unit, lines deleted
  later, sections of which one shows.

Objects that the source updates in place are classes here, with one method for each of their methods.
Each method is proved against a function, or a relation, of the state before it, and the laws are
lemmas about those. `dafny verify dfyconfig.toml` checks the project.

## What the model makes of the source

- Events are delivered by the model's own session: `act` at the end of a call of the store becomes the
  delivery, after the call, to each guichet registered, in order, until one of them fails.
- What an inheriting class displays is a pair of functions (`Renderer`): from its own state, its own path
  and the names of its children it decides which of them to ask what, each at most once, and it composes
  their answers. `Fields` holds the classes that never look at their path, and the fields of a form, whose
  identifier is made of it. Between any two of its steps any node may change its state, show or hide, if
  it is signalled. Once a node is known to have changed, nothing is supposed of what it answers.
- A component with options (html_options_create, html_options_merge and the like, and html_archive_read)
  is its own settings and a list of parts, each saved under its label if it is selected, and declared or
  not. `Components.CLASSES` lists the parts of each class.
- Owners of locks and objects in sections are natural numbers that stand for addresses. A name drawn at
  random is a parameter that has to be unused.
- Heights of nodes (`rank`), the set of all nodes (`peers`) and what they hold (`st`, for which
  `Holds(peers, st)`) are ghost parameters and results: the heights witness that the nodes form a forest,
  and the calls say what they do as relations between the two stores. Each call that builds, changes or
  moves also says that it is a step of a run (`BodyBuilders.IsStep`), so what `PageRuns` proves of runs is
  proved of any sequence of these calls.

## Where the source does not do what its comments say

- A refused `update_config` (src/bibliotheque.cpp:229-240) keeps the old configuration but drops all of
  its dependencies. `MentionLaws.RefusedUpdateLosesMentions` tells exactly when that loses something,
  and `MentionLaws.RefusedUpdateLetsNamesDangle` builds a store with a dangling name out of it.
- html_options_merge saves its compression parameters (src/html_options_merge.cpp:502) and leaves them out of
  what it declares (src/html_options_merge.cpp:528-545), the only class with options that does
  (`Components.OneClassLeavesOut`). `Components.MergeDeclaresIff` tells exactly when that leaves a name
  undeclared; `MentionLaws.MergeLetsNamesDangle` is a run from an empty store, with no update refused, that
  ends with a stored configuration mentioning one that is gone.
- `load_json` of the store empties it before anything is validated, leaves the locks alone, and announces
  the categories that hold something only (src/bibliotheque.cpp:395-449): after a reload, guichets of the
  other categories are out of order unless they follow nothing and had nothing to offer
  (`SessionProtocol.ReloadOrder`).
- `act` stops at the first actor that throws (src/events.cpp:151-165): when a guichet refuses a
  configuration that was updated, those registered after it are not told and keep the former one,
  selected and locked. `SessionProtocol.LeftBehind` builds such a run from an empty store,
  `SessionProtocol.StepDeliveredIff` tells exactly when everyone is told,
  `SessionProtocol.StepSettledIff` exactly when an event leaves all in order, reloads included, and
  `SessionProtocol.AlwaysGood` exactly when all are in order all along a run.
- A configuration with an empty name can be stored, and a guichet that follows it loses track of its lock
  exactly when its component takes it (`GuichetProtocol.EmptyNameLosesLock`). A configuration named "0"
  cannot be kept selected, as this is the identifier of the manual mode: what is saved under that name is
  stored and nothing is selected (`Guichets.Guichet.RebuildList`, `SessionProtocol.SaveAsIff`).
- `adopt` lets a node adopt the root of its own tree (src/body_builder.cpp:117-137), which makes a ring
  (`Forest.AdoptedAncestorIsRing`): telling the nodes below that their paths have changed then never ends
  (src/body_builder.cpp:155, `Forest.AdoptEndsIff`).
- `assign_anchor` changes what a node displays without signalling it (src/body_builder.cpp:402-416): what the
  nodes above keep, where it can be used, is right afterwards only if it takes the anchor into account
  (`PageRuns.AnchorTrustIff`).
- The part of a node may hold its own path: html_form_input (src/html_form_input.cpp:226), html_form_select
  (src/html_form_select.cpp:81), html_form_radio (src/html_form_radio.cpp:180) and html_form
  (src/html_form.cpp:93) call `get_path`. Adopting, letting go and `set_prefix` mark the nodes above, not
  those that move (src/body_builder.cpp:108-115, 155-164, 207-208), and of all classes html_button alone
  overrides `path_has_changed`. So a cache is right after a move if and only if the part it keeps is the
  same at the new path (`Adoptions.AdoptTrustIff`, `Adoptions.ForesakeTrustIff`,
  `Adoptions.PrefixTrustIff`), which it is for classes that do not look (`Fields.BlindIsPathFree`). A field
  that moves within its tree would answer with its former identifier (`Fields.MovedFieldIsStale`;
  `Fields.FieldAdoptedAgain` is such a move), as src/html_focus.cpp:42-60 moves nodes. The pages that are sent
  are right all the same, because the root marks all its nodes before it asks them
  (`BodyBuilders.BodyBuilder.GetPage`).
- A hidden node is not rendered at all (src/body_builder.cpp:684-709), although its header says that it
  is. `get_body_part` reports an error when the hundredth round is reached even if that round changed
  nothing (src/body_builder.cpp:384-387; `BodyBuilders.BodyBuilder.GetPage` and `BodyBuilders.Reported`).
- `base64::encode` compares a byte index with a number of blocks (src/base64.cpp:100): the round trip
  holds if and only if there are fewer than 6 bytes (`Base64.RoundTripOnlyShort`).
- `namify` is not injective (`Chemins.NamifyCollides`, and exactly when in `Chemins.NamifySameIff`); it is
  on the identifiers that are really made of it (`Paths.FormIdsTellApart`).
- A separator at the end of a string is not seen when the string is split (src/webdar_tools.cpp:96-117),
  so "a.1.dar." is taken for the name of a slice too (`SliceNames.SliceIffPieces`).
- `set_max_only(0)` does not remove the maximum: it makes the value zero
  (`InputUnits.HtmlFormInputUnit.SetMaxOnly`). A new size of zero is shown in bytes, not in kio
  (`InputUnits.NewInputUnit`). A value brought back to a minimum after a change of unit may end below it: a
  minimum of 1500 counted in thousands ends as 1000 (`InputUnits.EndsBelowMinimum`;
  `InputUnits.BroughtWithinIff` tells exactly when the value ends within limits).
- `remove_section` does not shift the number of the active section (src/html_aiguille.cpp:173-174;
  `Aiguilles.RemoveKeepsShownIff`), and `adopt_in_section` records an object before it is known to be
  free (src/html_aiguille.cpp:101-103; `Aiguilles.AdoptKeepsIffFree`).
- The counter that names the lines of a dynamic table wraps around: a new line may take the event of a line
  that is still there, which then cannot be deleted any more (`DynamicTables.AddKeepsValid`), and purging may
  end in an internal error (`DynamicTables.HtmlFormDynamicTable.PurgeToDelete`).
- A line of a dynamic table that is marked for deletion is still saved
  (`DynamicTables.HtmlFormDynamicTable.SaveJson`).

## Model

| member | source | states |
|---|---|---|
| ConfigTable.SearchDecidesAcyclicity | src/bibliotheque.cpp:601-617 | if the graph had no cycle before the edges towards one user changed, the search from that user fails exactly when the whole graph has a cycle now |
| ConfigTable.FoundIsCyclic | src/bibliotheque.cpp:601-617 | a search that fails has found a real cycle |
| ConfigTable.FewerEdgesAcyclic | src/bibliotheque.cpp:570-581 | removing edges never makes a cycle |
| ConfigTable.WithUserEdges | src/bibliotheque.cpp:550-568 | recording a user adds the edges to what it refers to, and no other |
| ConfigTable.WithoutUserEdges | src/bibliotheque.cpp:570-581 | removing a user removes all its edges, and no other |
| ConfigTable.WithoutWithUser | src/bibliotheque.cpp:156-169 | removing a user just recorded is removing it at once: the roll back of an addition leaves nothing behind |
| ConfigStore.Bibliotheque.AddDependencyFor | src/bibliotheque.cpp:550-568 | records the user in every configuration it refers to, or stops at a missing one with some of them recorded |
| ConfigStore.Bibliotheque.RemoveDependencyFor | src/bibliotheque.cpp:570-581 | removes the user from every configuration and changes nothing else |
| ConfigStore.Bibliotheque.GetDirectDependenciesOf | src/bibliotheque.cpp:583-599 | finds all the configurations the user uses, and only them |
| ConfigStore.Bibliotheque.CheckAgainstCyclicDependencies | src/bibliotheque.cpp:601-617 | always ends, and fails exactly when a walk from the source meets a configuration twice |
| ConfigStore.Bibliotheque.AddConfig | src/bibliotheque.cpp:141-172 | the new state and the outcome, refusals with their roll back included |
| ConfigStore.Bibliotheque.UpdateConfig | src/bibliotheque.cpp:212-241 | the new state and the outcome, a refusal dropping the former dependencies included |
| ConfigStore.Bibliotheque.DeleteConfig | src/bibliotheque.cpp:243-285 | refused for what is missing, used or locked; otherwise the configuration and its edges go |
| ConfigStore.Bibliotheque.AddExternalRefTo | src/bibliotheque.cpp:175-210 | locks a stored configuration for an owner that has no lock on it yet, and fails otherwise |
| ConfigStore.Bibliotheque.DeleteExternalRefTo | src/bibliotheque.cpp:287-305 | removes the lock of that owner, which has to exist, and the entry with its last lock |
| ConfigStore.Bibliotheque.HasConfig | src/bibliotheque.cpp:307-313 | tells whether something is stored under the name; an internal error exactly when the category is missing |
| ConfigStore.Bibliotheque.Listing | src/bibliotheque.cpp:331-343 | lists the names of a category, each once; an internal error exactly when the category is missing |
| ConfigStore.Bibliotheque.Clear | src/bibliotheque.cpp:345-352 | empties every category and leaves the locks alone |
| ConfigStore.Bibliotheque.FetchConfig | src/bibliotheque.cpp:315-324 | gives what is stored under the name; refuses a name that is not stored, and fails for a missing category |
| ConfigStore.Bibliotheque.SaveJson | src/bibliotheque.cpp:477-528 | writes a document that lists every category, configuration, user and the autosave flag, each once |
| ConfigStore.Bibliotheque.LoadJson | src/bibliotheque.cpp:374-475 | for any document, the state that is left and the categories announced, refusals on the way included |
| ConfigStore.Bibliotheque.LoadAsso | src/bibliotheque.cpp:407-445 | reads all the configurations of a category or refuses; a name met twice keeps its last definition |
| StoreJson.TableReadBack | src/bibliotheque.cpp:397-452 | a document written from a table is accepted exactly when all its configurations are JSON objects, and then gives the same table back |
| StoreJson.ReceivedIsAnnounced | src/bibliotheque.cpp:447-449 | among the categories met, those announced are the ones that received something |
| StoreLaws.AddLaw | src/bibliotheque.cpp:141-172 | an addition succeeds exactly when the name is free and all it refers to is stored (no cycle is then possible); a refusal changes nothing; nobody else is touched; there is something to save exactly if it succeeded or there was |
| StoreLaws.UpdateLaw | src/bibliotheque.cpp:212-241 | an update succeeds exactly when the result has no cycle and no missing name; after a refusal the configuration has no dependency left, which changes nothing exactly when it had none; there is something to save exactly if it succeeded or there was |
| StoreLaws.DeleteLaw | src/bibliotheque.cpp:243-285 | a deletion succeeds exactly for a stored configuration without user or lock, and touches nobody else; there is something to save exactly if it succeeded or there was |
| StoreLaws.RefusedAddition | src/bibliotheque.cpp:156-169 | in any store, sound or not, a refused addition leaves the name recorded as a user nowhere, and all else as it was |
| StoreLaws.LocksLaw | src/bibliotheque.cpp:175-305 | a lock is taken exactly on what is stored and not locked yet by that owner, released exactly if it is there, and no other lock or anything else changes |
| StoreLaws.ClearLaw | src/bibliotheque.cpp:345-352 | clearing leaves no configuration, all categories, all locks and nothing to save, as a new store has |
| StoreLaws.AlwaysSound | src/bibliotheque.cpp:141-285 | from an empty store every run of calls, successful or refused, keeps the graph acyclic, every user and every used configuration stored |
| StoreLaws.StepKeepsLocks | src/bibliotheque.cpp:175-305 | short of clearing, what is used or locked stays stored over any call, and only a deletion removes a configuration |
| StoreLaws.StepLedger | src/bibliotheque.cpp:175-305 | each call changes the locks by just the one it adds or removes, clearing by none |
| StoreLaws.AlwaysLedger | src/bibliotheque.cpp:175-352 | after any run from an empty store, clearing included, the locks are just those taken on what was stored then and not released since, and no entry is empty |
| StoreLaws.RunKeepsLocked | src/bibliotheque.cpp:175-324 | a configuration locked by an owner stays stored and locked over any run without clearing in which that owner does not unlock it |
| StoreLaws.RunKeepsUsed | src/bibliotheque.cpp:243-285 | a used configuration stays used over any run without clearing that neither updates nor deletes its user |
| StoreLaws.SaveThenLoad | src/bibliotheque.cpp:374-528 | loading what was saved restores table and flag, whatever the store held, exactly when all configurations are JSON objects; locks are left alone |
| StoreLaws.ReloadKeepsSound | src/bibliotheque.cpp:374-475 | a sound store whose configurations are all JSON objects is still sound once saved and loaded again |
| LoadLaws.LoadLaw | src/bibliotheque.cpp:374-475 | what loading any document leaves: nothing changes without a header; with one, the locks stay, all else is forgotten and there is nothing to save, the automatic saving is what the document tells, and each category is what its last section lists, up to the first section that cannot be read; in the end announced if a section of it lists something, unless one cannot be read |
| LoadLaws.SectionIs | src/bibliotheque.cpp:415-446 | the exact form of a section that is read |
| LoadLaws.ConfigIs | src/bibliotheque.cpp:427-443 | the exact form of a configuration in it, its users included |
| LoadLaws.CategoriesAreNamed | src/bibliotheque.cpp:619-666 | what documents call the categories |
| LoadLaws.CallFlags | src/bibliotheque.cpp:141-528 | after each call there is something to save just if it was an accepted addition, update or deletion, or there was and it did not save, clear or load; the automatic saving changes with clearing and loading only |
| LoadLaws.SavedIff | src/html_bibliotheque.cpp:725-740 | after any run of calls, savings and loadings there is something to save if and only if a change was accepted since the last saving, clearing or loading of a document with a header |
| Json.HeaderIs | src/jsoner.cpp:63-85 | the exact form of a header that is read, the version cut to 32 bits |
| Json.HeaderReadBack | src/jsoner.cpp:43-61 | a header is read back as it was written |
| Components.SaveJson | src/guichet.cpp:270-296 | what a component saves, recursively, through guichets, boolean masks, mask forms and the selected parts of options |
| Components.GetUsingSet | src/guichet.cpp:308-324 | the configurations a component declares, collected through guichets, the lines of nested masks and the parts of options that their class declares |
| SavedComponents.SavedIsReadBack | src/guichet.cpp:192-296 | whatever a component saves, through any nesting of guichets, masks, forms and options, is read back as it was: the logic of a mask and its lines in order with label, type and component, the settings and selected parts of options, the mode of a guichet and its configuration or name |
| UsingSets.UsingSetIff | src/guichet.cpp:308-324 | a configuration is declared if and only if a guichet that follows it can be reached through what each class collects |
| UsingSets.DeclaredOnceSaved | src/html_options_merge.cpp:455-506 | what is declared after saving is what the component declares once the alternatives that are not selected are cleared |
| UsingSets.SavedAgain | src/html_options_merge.cpp:455-506 | clearing them loses nothing that is saved: saved again it gives the same document |
| Components.SavedMentions | src/guichet.cpp:270-296 | the references found anywhere in the saved document are just the configurations followed by the guichets in it that show, through any nesting of masks and options |
| Components.WrittenIsCovered | src/html_options_create.cpp:596-710 | for any nesting, whatever a component writes it declares, or else it is written by a part that its class does not declare; before saving and after it, which clears the alternatives that are not selected |
| Components.MentionsAreDeclaredIff | src/html_options_create.cpp:596-710 | everything the saved document refers to is declared if and only if what is written by the parts that are not declared is declared by others |
| Components.OneClassLeavesOut | src/html_options_merge.cpp:528-545 | of the nine classes with parts all but html_options_merge declare all they save |
| Components.MentionsAreDeclared | src/html_options_create.cpp:596-710 | so everything is declared, asked before saving or after, for any tree made of the eight others |
| Components.MergeLeavesOut | src/html_options_merge.cpp:455-545 | html_options_merge leaves out just what its compression parameters write |
| Components.MergeDeclaresIff | src/html_options_merge.cpp:455-545 | and declares all it mentions if and only if these are set up by hand, or another part declares the configuration they follow |
| MentionLaws.AcceptedRecordsIff | src/bibliotheque.cpp:141-241 | an accepted addition or update leaves every mention protected if and only if it declares all that its definition mentions |
| MentionLaws.StepMentionsIff | src/bibliotheque.cpp:141-285 | any call does if and only if it declares what it stores and mentions or, as a refused update, meets a definition that mentions nothing |
| MentionLaws.RunMentionsIff | src/bibliotheque.cpp:141-285 | over any run, of any calls, every mention is protected all along if and only if each call is such when its turn comes |
| MentionLaws.RunKeepsMentions | src/bibliotheque.cpp:141-285 | and then, from an empty store, every name inside a stored configuration is stored |
| MentionLaws.SavingKeepsMentions | src/arriere_boutique.hpp:320-345 | so it is over any run that saves components without html_options_merge among them and in which no update is refused |
| MentionLaws.MergeLetsNamesDangle | src/html_options_merge.cpp:502 | with html_options_merge five calls from an empty store, none of them refused, leave a stored configuration with a name that is not stored |
| MentionLaws.RefusedUpdateLosesMentions | src/bibliotheque.cpp:229-240 | a refused update keeps the names protected exactly when the configuration mentions none |
| MentionLaws.RefusedUpdateLetsNamesDangle | src/bibliotheque.cpp:229-240 | two additions, a refused update and a deletion leave a stored configuration with a name that is not stored |
| GuichetProtocol.OnSelectProper | src/guichet.cpp:333-356 | from an exact lock, whatever the store holds, a selection ends with an exact lock and the present configuration held, or in manual mode, and never in an internal error; it succeeds exactly for a stored configuration that the component takes; but for an empty name that is taken |
| GuichetProtocol.UpdateProper | src/guichet.cpp:511-565 | after any change of the store is handled a guichet that follows no empty name is in order |
| GuichetProtocol.UpdateTakes | src/guichet.cpp:511-565 | handling a change succeeds if and only if the component takes the configuration that stays selected, if any |
| Guichets.Guichet.RebuildList | src/guichet.cpp:511-565 | lists the names stored now and keeps the selection exactly for a name that still is and is not "0" |
| GuichetProtocol.LoadJsonKept | src/guichet.cpp:192-268 | loading a guichet, for any document and any store, keeps its lock exact and keeps it in order, unless the document names an empty name that is taken |
| GuichetProtocol.EmptyNameLosesLock | src/guichet.cpp:576-597 | any selection leaves the lock exact if and only if it is not of an empty name that is taken |
| GuichetLaws.SelectedEffect | src/guichet.cpp:567-597 | following a configuration, all that is left: taken, it is held and locked; refused, the component holds what the refusal left; missing, what it held; in both cases manual mode without a lock, not to be blanked |
| GuichetLaws.ManualEffect | src/guichet.cpp:333-356 | letting go of it: no lock, and the component blank exactly if it is to be |
| GuichetLaws.ManualChosen | src/guichet.cpp:333-356 | choosing the manual mode from the list blanks the component exactly if a page was shown since the last edit or refusal |
| GuichetLaws.NameChosen | src/guichet.cpp:333-356 | choosing a name from the list: nothing if it is not there or selected already, otherwise as it is followed |
| GuichetLaws.EditEffect | src/guichet.cpp:371-383 | the edit button ends in manual mode without a lock, the component holding what is stored under the name |
| GuichetLaws.ClearEffect | src/guichet.cpp:298-306 | clearing ends in manual mode without a lock and with a blank component; the button works in manual mode only |
| GuichetLaws.UpdateEffect | src/guichet.cpp:511-565 | after a change of the store, all that is left, whether the name is kept, gone, equal to "0" or refused |
| GuichetLaws.OtherRefused | src/guichet.cpp:192-214 | a document that is not of a guichet, of a later version or without a mode is refused and changes nothing |
| GuichetLaws.LoadOwnEffect | src/guichet.cpp:215-223 | loading in manual mode ends well if and only if what was followed was dealt with and the component takes the configuration in the document, which it then holds; nothing is selected or locked in any case |
| GuichetLaws.LoadNamedEffect | src/guichet.cpp:224-251 | loading a name ends with it selected and its definition held if and only if what was followed was dealt with, the category is right, and the name is stored, not "0" and taken |
| GuichetLaws.ReleaseEffect | src/guichet.cpp:338-343 | the lock known is released and no other; an internal error if it is not there |
| GuichetLaws.CategoryMissing | src/bibliotheque.cpp:315-343 | in a store that lacks the category following and listing are internal errors, after which nothing is locked and the component is as it was |
| GuichetLaws.AlreadyLocked | src/guichet.cpp:576-597 | following what is locked already ends in an internal error, with the configuration in the component |
| SessionProtocol.StepGood | src/guichet.cpp:326-436 | every event, loading a document into the store included, keeps the store sound and every lock exact, and any but the latter all guichets in order if everyone who had to be told of a change was |
| SessionLaws.EventIsCall | src/bibliotheque.cpp:141-285 | an addition, update or deletion leaves in the store, but for the locks, what the call leaves; it ends well if and only if it is accepted and all those told take what it leaves them; refused, it tells nobody |
| SessionLaws.AllCleared | src/bibliotheque.cpp:345-352 | once cleared and told, nothing is stored or locked and every guichet is in manual mode with nothing to offer |
| SessionLaws.SaveAsStores | src/guichet.cpp:393-417 | saving under a new name stores what the component holds and records what it declares, exactly if the name is not empty nor taken and all it declares is stored; refused, nothing changes |
| SessionLaws.OthersUntouched | src/guichet.cpp:326-436 | an event of one guichet leaves the others, what is stored and the locks of others alone |
| SessionLaws.CreatedEvent | src/guichet.cpp:86-190 | a new guichet comes last with the names stored on offer |
| SessionLaws.QuietEvents | src/guichet.cpp:450-456 | showing a page makes the next choice of the manual mode blank the component, and nothing else |
| SessionLaws.ManualAfterRendering | src/guichet.cpp:333-356 | the manual mode chosen from the list of a page that was shown leaves the component blank |
| SessionLaws.EditedByHand | src/guichet.cpp:371-383 | after the edit button the component holds what is stored, and a change made by hand stays in it; none is made while a configuration is followed |
| SessionLaws.ClearedGuichet | src/guichet.cpp:298-306 | a guichet that is cleared has a blank component |
| SessionLaws.DestroyedEvent | src/guichet.cpp:77-84 | a guichet destroyed leaves the others in their order and what is stored |
| SessionProtocol.StepDeliveredIff | src/events.cpp:151-165 | everyone is told if and only if each guichet of the categories concerned takes the configuration that the event leaves selected for it, which can be told before the call |
| SessionProtocol.DeliverAt | src/events.cpp:151-165 | a guichet that comes after one that refuses is left as it was, and every other one of the category ends in order |
| SessionProtocol.DeliverEachAt | src/events.cpp:151-165 | when several categories are announced, a guichet ends in order if its category is and no guichet refused before its turn; every other one is left as it was |
| SessionProtocol.AnnounceSettledIff | src/events.cpp:151-165 | of guichets in order before an accepted change all are afterwards if and only if those that come after one that refuses still agree with the store |
| SessionProtocol.StepSettledIff | src/events.cpp:151-165 | guichets in order stay so over any event, reloads included, if and only if those it does not tell agree with the store it leaves, which can be told before it |
| SessionProtocol.UpdateCutShort | src/events.cpp:151-165 | when the first of two guichets that follow a configuration refuses its update, the second still selects it and holds its former definition |
| SessionProtocol.LeftBehind | src/events.cpp:151-165 | a run from an empty store, for any such configuration and any two guichets, that leaves the second out of order |
| SessionProtocol.FollowNewIff | src/guichet.cpp:418-428 | following a stored name selects it if and only if the component takes its configuration and the name is not "0"; a refusal is an internal error |
| SessionProtocol.SaveAsIff | src/guichet.cpp:393-429 | saving under a free name, once everyone took the change, ends with that name selected if and only if the component takes back what it saved and the name is not "0"; with an internal error exactly if it refuses it |
| SessionProtocol.AlwaysGood | src/guichet.cpp:326-436 | every run of events over one store with any number of guichets, reloads included, keeps it sound, with at most one lock for each guichet and no other; and all guichets are in order all along if and only if no event leaves behind one that it does not tell |
| SessionProtocol.DestroyGood | src/guichet.cpp:77-84 | destroying a guichet leaves no lock of it and no other lock touched |
| SessionProtocol.ReloadOrder | src/bibliotheque.cpp:395-475 | once a document is read to its end, with all categories or not, a guichet whose category received nothing is left as it was, and is in order if and only if it follows nothing and had nothing to offer |
| SessionProtocol.ReloadTold | src/bibliotheque.cpp:395-475 | a document refused on the way is told to nobody; one read to its end, whatever it stores, is told to everyone concerned if and only if they take what it has for them |
| Guichets.Guichet.OnEventSelect | src/guichet.cpp:333-369 | the object does what the protocol says of a selection |
| Guichets.Guichet.OnEventEdit | src/guichet.cpp:371-383 | goes to manual mode, keeping what the component holds |
| Guichets.Guichet.OnEventClear | src/guichet.cpp:384-392 | blanks the component, in manual mode only |
| Guichets.Guichet.SetAdopted | src/guichet.cpp:567-597 | releases, fetches, loads, locks; on any failure falls back to manual mode |
| Guichets.Guichet.UpdateSelected | src/guichet.cpp:511-565 | rebuilds the list, keeps the choice if it still exists, and handles it once |
| Guichets.Guichet.FollowNew | src/guichet.cpp:418-428 | the object does what the protocol says of following the name just saved, every failure being an internal error |
| Guichets.Guichet.LoadJson | src/guichet.cpp:192-268 | the object does what the protocol says of loading, for any document |
| Guichets.Guichet.Destroy | src/guichet.cpp:77-84 | releases the lock it holds |
| Guichets.Session.Act | src/events.cpp:151-165 | delivers a change to the guichets of the category, in order, until one fails |
| Guichets.Session.AddConfig | src/bibliotheque.cpp:141-172 | the store's call followed by its delivery is the protocol's step; a refusal may be an internal error in a store that lacks categories |
| Guichets.Session.UpdateConfig | src/bibliotheque.cpp:212-241 | likewise |
| Guichets.Session.DeleteConfig | src/bibliotheque.cpp:243-285 | likewise |
| Guichets.Session.Clear | src/bibliotheque.cpp:345-352 | likewise, told to the guichets of every category |
| Guichets.Session.LoadStore | src/bibliotheque.cpp:374-475 | loading followed by the announcements is the protocol's reload |
| Guichets.Session.SaveAs | src/guichet.cpp:393-429 | saving under a new name adds it, tells everyone, and follows it, as the protocol says |
| Forest.AdoptCoherent | src/body_builder.cpp:139-151 | adopting under an unused name keeps the four views of the adoption relation in agreement |
| Forest.AdoptedLast | src/body_builder.cpp:139-151 | the adopted node comes last, under the name given; the other children keep place and name |
| Forest.ForesakenLeaves | src/body_builder.cpp:167-209 | the children before and after the one let go stay in order, under their names |
| Forest.AdoptRanked | src/body_builder.cpp:117-151 | and the nodes a forest, if the adopted node is not above its adopter |
| Forest.AdoptedAncestorIsRing | src/body_builder.cpp:117-151 | and only if: otherwise no heights are possible any more |
| Forest.AdoptEndsIff | src/body_builder.cpp:155 | the call that tells the adopted node, its children and so on ends if and only if the adopted node is not above its adopter |
| Forest.ForesakeCoherent | src/body_builder.cpp:167-209 | letting a child go keeps the views in agreement and the forest |
| Forest.OneBranch | src/body_builder.cpp:117-151 | no node is under two children of one parent |
| Adoptions.MoveKeepsForest | src/body_builder.cpp:69-209 | so does any creation, adoption, letting go, assignment or destruction |
| Adoptions.RunIsForest | src/body_builder.cpp:69-209 | after any run of these from no node at all, no adoption being of a node above, the four views agree and the nodes are a forest |
| Adoptions.RerankCore | src/body_builder.cpp:673-723 | what is displayed depends on the tree, not on the heights that witness it |
| Adoptions.AdoptTrustIff | src/body_builder.cpp:153-165 | caches that were all right still are after an adoption if and only if the parts kept by the adopted node and what is under it, where they can be used, are the same at their new paths |
| Adoptions.ForesakeTrustIff | src/body_builder.cpp:207-208 | likewise after letting a child go |
| Adoptions.PrefixTrustIff | src/body_builder.cpp:108-115 | likewise of what is under a root that is told where it is |
| Adoptions.OrphanTrustIff | src/body_builder.cpp:552-585 | likewise of what was under a node that lets all its children go |
| Adoptions.LetGoTrustIff | src/body_builder.cpp:78-106 | likewise, for all nodes but one that also leaves its parent |
| Adoptions.RemoveTrustIff | src/body_builder.cpp:69-75 | once a node without links is gone all caches are right if and only if those of the others were |
| Adoptions.CreateKeepsTrust | src/body_builder.cpp:621-639 | a new node, which is marked, leaves all caches right |
| PageRuns.AnchorTrustIff | src/body_builder.cpp:402-416 | once an anchor is assigned or released all caches that were right still are if and only if those of the nodes above that can be used hold what they would produce with it |
| PageRuns.StepTrustIff | src/body_builder.cpp:69-435 | any step, a change, a request, an anchor, a creation or a move, keeps the nodes in good order, and all caches right if and only if the parts kept below what it moves do not depend on their paths and those above an anchor have it |
| PageRuns.RunTrustIff | src/body_builder.cpp:69-435 | over any run of these in any order the nodes stay in good order, and caches that were right at first are all along if and only if each step is such when its turn comes |
| PageRuns.AlwaysTrustIff | src/body_builder.cpp:69-435 | so it is of any run from no node at all |
| Fields.BlindIsPathFree | src/body_builder.cpp:593-604 | what classes that do not look at their path display, in whole subtrees, is the same at any path |
| Fields.FieldPathFree | src/html_form_input.cpp:222-290 | what a field keeps is the same at another path if and only if its identifier is |
| Fields.MovedFieldIsStale | src/html_focus.cpp:42-60 | a field that shows, let go by one node and adopted by another of the same tree, is not marked, and what it keeps is wrong unless it is back under the same parent and name |
| Fields.FieldAdoptedAgain | src/html_focus.cpp:42-60 | a page with a field, all of whose caches are right, and two moves after which the field would answer with its former identifier |
| Rendering.UnmarkedSame | src/body_builder.cpp:420-435 | a node that a covering set of marks leaves out is rendered as before |
| Rendering.NamesLeadTo | src/body_builder.cpp:479-505 | the names a class is given are, in order, those under which the children are found |
| Rendering.AnswerAt | src/body_builder.cpp:507-549 | a class is answered, ask by ask, what the child it asked renders |
| Rendering.ShownWithAnchor | src/body_builder.cpp:684-723 | a hidden node shows nothing but its anchor, which is put around what the node shows |
| Rendering.MarkCovers | src/body_builder.cpp:420-435 | signalling a change of a node that shows, or that never does, covers it: marks stop at the first hidden node and nothing that shows above is missed |
| Rendering.SwitchedEvolves | src/body_builder.cpp:211-234 | marking before hiding and after showing is enough: every unmarked node is rendered as before |
| Rendering.ChangedEvolves | src/body_builder.cpp:420-435 | so is marking after a change of state, hidden nodes included |
| RenderPass.AskStep | src/body_builder.cpp:507-549 | after a child has answered, all the answers a node got so far are still right, unless it is known to have changed |
| RenderPass.ComposedAfresh | src/body_builder.cpp:688-699 | a node that followed its plan to the end unchanged has composed what rendering it afresh gives |
| RenderPass.EndComposing | src/body_builder.cpp:688-699 | what it keeps is then right, its parent knows if it changed, nobody under it was asked twice with POST |
| RenderPass.PassedOn | src/body_builder.cpp:374-388 | two rounds, one at most with POST, show POST at most once to every node |
| RenderPass.ActKeepsState | src/body_builder.cpp:211-234 | a signalled change keeps the nodes in good order, and leaves all caches right if they were |
| RenderPass.PassKeepsCaches | src/body_builder.cpp:354-391 | so do any rounds from any node |
| BodyBuilders.BodyBuilder.MyBodyPartHasChanged | src/body_builder.cpp:420-435 | marks the node and those above it up to the first hidden one, which is left out, and no other |
| BodyBuilders.BodyBuilder.SetVisible | src/body_builder.cpp:211-234 | shows or hides, the signal being given while the node shows |
| BodyBuilders.BodyBuilder.Perform | src/body_builder.cpp:211-234 | any signalled change keeps every cache right if all were, and is a step of a run |
| BodyBuilders.BodyBuilder.GetBodyPartOrCache | src/body_builder.cpp:673-723 | unless the node is known to have changed meanwhile, the answer is what rendering it afresh now gives, from the cache or not, and an answer from the cache changes nothing; if it is, its parent knows; caches below are right; no node is asked twice with POST, and a marked node that shows is asked |
| BodyBuilders.BodyBuilder.FlushAllCachedBodyPart | src/body_builder.cpp:659-671 | marks all the nodes of the subtree and no other |
| BodyBuilders.BodyBuilder.GetPage | src/body_builder.cpp:354-391 | whatever the caches were, a page the root returns is what rendering the final state with no cache gives, the root is then unmarked, POST reached the root once if it showed and no node more than once; a page comes if and only if one of the first 99 rounds left the root unmarked, and at most 100 are made |
| BodyBuilders.PageCameIff | src/body_builder.cpp:354-391 | a page comes if and only if one of the first 99 rounds left the root unmarked, with the first that does; otherwise there were 100, the first 99 of which left it marked |
| BodyBuilders.BodyBuilder.GetBodyPart | src/body_builder.cpp:354-391 | for any node, all caches can be trusted afterwards if they could before, and an unmarked node has answered what rendering it afresh gives |
| BodyBuilders.BodyBuilder.Adopt | src/body_builder.cpp:117-165 | refused for itself, its own child and any adopted node, with nothing changed; otherwise the new family and the signal, and caches that are right exactly when what is kept below the child does not depend on its path |
| BodyBuilders.BodyBuilder.Foresake | src/body_builder.cpp:167-209 | refused for a node that is no child; otherwise the new family and the signal, and caches that are right on the same condition |
| BodyBuilders.BodyBuilder.OrphanAllChildren | src/body_builder.cpp:552-585 | ends, with the three views of the children empty, each child without parent and nobody else changed; caches right on the same condition |
| BodyBuilders.BodyBuilder.AssignFrom | src/body_builder.cpp:78-106 | cuts all links, empties the cache; the other caches are right on the same condition |
| BodyBuilders.BodyBuilder.Destroy | src/body_builder.cpp:69-75 | leaves the other nodes a forest without it, with caches that are right on the same condition |
| BodyBuilders.BodyBuilder.GetVisibleRecursively | src/body_builder.cpp:236-244 | tells whether the node and all above it show |
| BodyBuilders.BodyBuilder.SetPrefix | src/body_builder.cpp:108-115 | refused for an adopted node; otherwise set and signalled, with caches that are right on the same condition |
| BodyBuilders.NewBodyBuilder | src/body_builder.cpp:621-639 | a new node is added to those there were, in good order, and all caches are right if they were |
| BodyBuilders.BodyBuilder.GetPath | src/body_builder.cpp:437-454 | the prefix of the root followed by the names on the way down |
| Paths.PlaceIsPath | src/body_builder.cpp:437-454 | the path read on the way up is the prefix of the root followed by the names on the way down |
| Paths.PathLeadsTo | src/body_builder.cpp:437-505 | following the path of a node from its root leads to it |
| Paths.OnlyPathLeadsTo | src/body_builder.cpp:479-505 | a descent from a root ends at the node whose path was followed, or nowhere |
| Paths.PathsTellApart | src/body_builder.cpp:437-454 | two nodes of one tree have different paths |
| Paths.FormIdsTellApart | src/chemin.cpp:140-159 | and different identifiers, with names of one width and any prefix |
| Paths.RunKeepsNamesWide | src/body_builder.cpp:139-151 | names keep the width they are drawn with, over any run |
| Tools.SplitBy | src/webdar_tools.cpp:96-117 | gives the pieces between separators, except an empty one at the end |
| Tools.PiecesOfJoined | src/webdar_tools.cpp:96-117 | parts without separator, the last not empty, are cut again as they were joined |
| Tools.JoinedPieces | src/webdar_tools.cpp:96-117 | joined again, the pieces give the string, but for a separator at its end |
| Tools.ToIntOfDecimal | src/webdar_tools.cpp:83-94 | a number written in decimal is read back if and only if it fits an int |
| Tools.ToIntIs | src/webdar_tools.cpp:83-94 | after blanks and a sign the leading digits are the number, unless it is negative or does not fit an int; without any there is none |
| Tools.DecimalIsPositional | src/webdar_tools.hpp:40-50 | the digits of a number in decimal, without zeros in front |
| Chemins.Chemin.constructor | src/chemin.cpp:43-56 | the members are the non-empty pieces, in order |
| Chemins.Chemin.IsTheBeginningOf | src/chemin.cpp:58-70 | true exactly when the other path is this one followed by some members |
| Chemins.Chemin.PushBack | src/chemin.cpp:72-79 | adds a member, and refuses exactly those that hold a slash |
| Chemins.Chemin.Append | src/chemin.cpp:81-90 | adds the members of the other path, of which this one then is a beginning |
| Chemins.Chemin.PopFront | src/chemin.cpp:92-100 | removes the first member, refused for the empty path |
| Chemins.Chemin.PopBack | src/chemin.cpp:102-110 | removes the last member, refused for the empty path |
| Chemins.Chemin.Display | src/chemin.cpp:119-138 | the members joined with slashes, one before them unless relative |
| Chemins.Chemin.Namify | src/chemin.cpp:140-159 | the members joined with underscores |
| Chemins.DisplayTellsApart | src/chemin.cpp:119-138 | two clean paths are displayed differently |
| Chemins.DisplayIs | src/chemin.cpp:119-138 | a slash between two members, and one before them all exactly if the path is not relative |
| Chemins.NamifyIs | src/chemin.cpp:140-159 | underscores between the members, and nothing else |
| Chemins.ParsedAround | src/chemin.cpp:43-56 | what is before a slash and what is after it are read by themselves |
| Chemins.ParsedDisplay | src/chemin.cpp:119-138 | a path is read back from what displays it, absolute or relative, if and only if no member is empty or holds a slash |
| Chemins.ParsedIsClean | src/chemin.cpp:43-56 | no string gives an empty member or one with a slash |
| Chemins.BeginningIsOrder | src/chemin.cpp:58-70 | being the beginning of is a partial order |
| Chemins.NamifyTellsApart | src/chemin.cpp:140-159 | identifiers tell apart paths made of one prefix and names of one width |
| Chemins.NamifyTellsApartPlain | src/chemin.cpp:140-159 | and paths whose members are not empty and hold no underscore |
| Chemins.NamifySameIff | src/chemin.cpp:140-159 | two paths share an identifier if and only if their members, cut at every underscore, give the same pieces |
| Chemins.NamifyCollides | src/chemin.cpp:140-159 | so not all paths are told apart |
| Base64.DigitsAreStandard | src/base64.cpp:221-238 | the digits are those of section 4 of RFC 4648, in its order |
| Base64.ReadIsDigit | src/base64.cpp:204-219 | exactly the digits and the padding are read, and digits are read back |
| Base64.EncodedGroup | src/base64.cpp:147-201 | three bytes and their four digits are the same 24 bits |
| Base64.DecodedGroup | src/base64.cpp:122-145 | so are four characters and the three bytes they give |
| Base64.BlockReadBack | src/base64.cpp:122-201 | a block gives its bytes back, zeros for those left out |
| Base64.Encode | src/base64.cpp:91-120 | as written, the text is that of the first third of the blocks, rounded up, and of the last partial one |
| Base64.EncodedOnlyShort | src/base64.cpp:100-101 | which is the whole encoding if and only if there are fewer than 6 bytes |
| Base64.EncodedIsPadded | src/base64.cpp:91-120 | the encoding of all the blocks has the length, the digits and the padding of the standard |
| Base64.Complement | src/base64.cpp:240-250 | adds the least padding that makes whole blocks |
| Base64.Decode | src/base64.cpp:44-66 | the bytes of all the blocks, or the refusal of the first that has a wrong character |
| Base64.DecodeRefuses | src/base64.cpp:204-219 | a text is refused if and only if it holds a character that is neither a digit nor padding |
| Base64.DecodedEncoded | src/base64.cpp:44-120 | all bytes come back from the encoding of all the blocks, with zeros up to a multiple of three |
| Base64.RoundTripOnlyShort | src/base64.cpp:44-120 | as written, they do if and only if there are fewer than 6 |
| Base64.Examples | src/base64.cpp:91-201 | examples of section 10 of RFC 4648 |
| SliceNames.HtmlFormInputFile.SlicenameToBasenameUpdateMinDigits | src/html_form_input_file.cpp:266-307 | for the name of a slice gives its basename and the digits to be kept; for any other string gives it unchanged and no digits |
| SliceNames.SliceIffPieces | src/html_form_input_file.cpp:273-291 | every basename and number make the name of a slice, and the pieces tell exactly those names and both parts of them |
| SliceNames.OnlySlicesChange | src/html_form_input_file.cpp:266-307 | the result for the name of a slice differs from it |
| SliceNames.SliceIs | src/html_form_input_file.cpp:266-307 | a basename, a dot, digits and ".dar" are the name of a slice |
| SliceNames.MinDigitsIs | src/html_form_input_file.cpp:293-297 | the digits kept are as many as the slice number has if it starts with a zero, and none otherwise |
| InputUnits.LargestUnit | src/html_form_input_unit.cpp:224-266 | among the powers 0 to 10 of 1000 and 1024 that divide the value, none gives a smaller quotient than the one chosen; stopping at the first that does not divide loses nothing |
| InputUnits.UnitsAre | src/html_size_unit.cpp:84-124 | the units are the powers of 1000 and of 1024 |
| InputUnits.BestOfAll | src/html_form_input_unit.cpp:224-266 | and the best one divides the value with the smallest quotient among all of them up to the tenth powers |
| InputUnits.LimitsAre | src/html_form_input_unit.cpp:301-329 | a value is within limits if it is neither less than the minimum nor, unless the maximum is zero, more than it |
| InputUnits.NoHigherDivides | src/html_form_input_unit.cpp:244-262 | if a power of the base does not divide, no higher one does |
| InputUnits.HtmlFormInputUnit.SetValueToLargestUnit | src/html_form_input_unit.cpp:224-299 | displayed number times unit is the value, which does not change; refused only if the number does not fit an int or the value is out of limits |
| InputUnits.HtmlFormInputUnit.SetFieldVal | src/html_form_input_unit.cpp:219-222 | shows the whole number of units, the event this raises included |
| InputUnits.HtmlFormInputUnit.SetRange | src/html_form_input_unit.cpp:90-110 | refuses limits that make no sense, changing nothing; otherwise the value is the nearest one between the limits, even if displaying it fails; shown anew in its best unit exactly if it changed |
| InputUnits.HtmlFormInputUnit.SetMinOnly | src/html_form_input_unit.cpp:112-121 | the value becomes the minimum if it was less, and only then is shown anew |
| InputUnits.HtmlFormInputUnit.SetMaxOnly | src/html_form_input_unit.cpp:123-132 | the value becomes the maximum if it was more, even for a maximum of zero, and only then is shown anew |
| InputUnits.HtmlFormInputUnit.CheckMinMaxCompliance | src/html_form_input_unit.cpp:301-329 | the border is red exactly when the value is out of limits; refuses the first time only |
| InputUnits.HtmlFormInputUnit.OnFieldChanged | src/html_form_input_unit.cpp:140-150 | the value follows the number typed, times the unit; what is no number changes nothing |
| InputUnits.HtmlFormInputUnit.OnUnitChanged | src/html_form_input_unit.cpp:151-178 | the same number counts in the new unit; out of limits it is refused at first, then becomes the multiple of the unit next below the limit, or the limit if that is shown already or cannot be; actors are told once at most |
| InputUnits.BroughtWithinIff | src/html_form_input_unit.cpp:160-171 | a value brought to the minimum ends within limits if and only if the unit divides it, or its quotient was shown already or fits no int; one brought to the maximum if and only if this is not below the minimum |
| InputUnits.EndsBelowMinimum | src/html_form_input_unit.cpp:160-171 | a value brought to a minimum of 1500 counted in thousands ends as 1000 |
| InputUnits.AmountReduced | src/html_form_input_unit.cpp:331-334 | the multiple of a unit next below a value is that value exactly when the unit divides it |
| InputUnits.NewInputUnit | src/html_form_input_unit.cpp:49-88 | a new component shows its value at best, zero in the unit itself |
| DynamicTables.AddKeepsValid | src/html_form_dynamic_table.cpp:132-147 | a line with a new event keeps events and lines in bijection if and only if the event is not in use |
| DynamicTables.AddedLast | src/html_form_dynamic_table.cpp:132-147 | a new line comes last, with its event, and concerns no other |
| DynamicTables.DeletedLater | src/html_form_dynamic_table.cpp:308-342 | a line asked to be deleted stays in its place with its event until it is purged, its components let go |
| DynamicTables.KeptConcat | src/html_form_dynamic_table.cpp:344-367 | purging keeps the order of the lines that remain |
| DynamicTables.HeaderAccepted | src/html_form_dynamic_table.cpp:150-190 | exactly which documents are accepted as tables, and which refusal the others meet |
| DynamicTables.ListingAccepted | src/html_form_dynamic_table.cpp:150-190 | likewise for the list of lines |
| DynamicTables.LineAccepted | src/html_form_dynamic_table.cpp:190-224 | exactly which lines can be read, and which failure the others meet |
| DynamicTables.SavedLine | src/html_form_dynamic_table.cpp:226-262 | what is saved of each line, its label exactly if the table has labels |
| DynamicTables.CanDeleteOnce | src/html_form_dynamic_table.cpp:308-342 | the components of a line are held exactly until its deletion is asked |
| DynamicTables.PurgeKeepsValid | src/html_form_dynamic_table.cpp:344-367 | purging keeps events and lines in bijection and leaves no deletion pending |
| DynamicTables.KeptElements | src/html_form_dynamic_table.cpp:344-367 | what purging keeps is just the lines that are not marked |
| DynamicTables.RunIsValid | src/html_form_dynamic_table.cpp:102-367 | over any run, each event is for one line and each line has one, and pending deletions are distinct and of lines that exist |
| DynamicTables.StepKeepsLoose | src/html_form_dynamic_table.cpp:102-367 | whatever the counter gives, lines and events stay told apart, and the bijection is lost just when an event in use is given again |
| DynamicTables.NotCountedYet | src/html_form_dynamic_table.cpp:132 | the counter gives no name twice before it has gone all the way around |
| DynamicTables.DocumentReadBack | src/html_form_dynamic_table.cpp:150-262 | the lines saved are read back as they were, in order |
| DynamicTables.HtmlFormDynamicTable.AddLine | src/html_form_dynamic_table.cpp:102-148 | a line of a known kind comes last; events stay in bijection with lines if and only if its event was free |
| DynamicTables.HtmlFormDynamicTable.DelLine | src/html_form_dynamic_table.cpp:308-342 | marks the line of the event and lets its components go, exactly if they are held, even once the counter has wrapped around; an unknown event only tells the actors |
| DynamicTables.HtmlFormDynamicTable.PurgeToDelete | src/html_form_dynamic_table.cpp:344-367 | removes just the marked lines, the others keeping their order, and tells the actors if there was any; an internal error exactly if an event marked is met twice or not known, with the lines marked before it gone |
| DynamicTables.HtmlFormDynamicTable.LoadJson | src/html_form_dynamic_table.cpp:150-224 | for any document: accepted exactly when every line can be read, and then the lines are those of the document; otherwise those before the first that cannot be, and the one being made; nothing is lost before the header is accepted |
| DynamicTables.HtmlFormDynamicTable.SaveJson | src/html_form_dynamic_table.cpp:226-262 | writes all the lines in order, those marked for deletion included |
| Aiguilles.AdoptKeepsIffFree | src/html_aiguille.cpp:90-104 | the records stay true if and only if the adopted object had no parent |
| Aiguilles.LeaveKeeps | src/html_aiguille.cpp:231-254 | they do when an object leaves |
| Aiguilles.ClearKeeps | src/html_aiguille.cpp:113-147 | and when a section is emptied, which then holds nothing |
| Aiguilles.RemoveKeepsShownIff | src/html_aiguille.cpp:156-179 | just the active section still shows after a removal if and only if none was active, or the section removed came after it, or was it and the last |
| Aiguilles.ActivateKeeps | src/html_aiguille.cpp:201-215 | just the section activated shows |
| Aiguilles.ActivateShownIff | src/html_aiguille.cpp:201-215 | whatever showed before, just the section activated shows if and only if all but the two concerned were hidden |
| Aiguilles.AddedLast | src/html_aiguille.cpp:51-88 | a new section comes last, hidden and empty, with its title, and concerns no other |
| Aiguilles.AdoptedLast | src/html_aiguille.cpp:90-104 | an adopted object comes last in its section; no other section is concerned |
| Aiguilles.LeftInOrder | src/html_aiguille.cpp:231-254 | the objects that remain when one leaves stay in order |
| Aiguilles.ClearedLeaves | src/html_aiguille.cpp:113-147 | an emptied section keeps its title; no other is concerned |
| Aiguilles.RemovedLeaves | src/html_aiguille.cpp:156-179 | the sections that remain stay in order and as they were, with their objects |
| Aiguilles.RunKeeps | src/html_aiguille.cpp:42-254 | over any run of careful adoptions and removals the records agree and just the active section shows |
| Aiguilles.HtmlAiguille.AddSection | src/html_aiguille.cpp:51-88 | a new section comes last and hidden; a name in use is refused |
| Aiguilles.HtmlAiguille.AdoptInSection | src/html_aiguille.cpp:90-104 | what is recorded and what is adopted, an internal error for an object with a parent included |
| Aiguilles.HtmlAiguille.VoidChildWillForesake | src/html_aiguille.cpp:231-254 | forgets an object that leaves, unless the component itself is letting it go |
| Aiguilles.HtmlAiguille.ClearSection | src/html_aiguille.cpp:113-147 | lets all the objects of one section go and no other |
| Aiguilles.HtmlAiguille.RemoveSection | src/html_aiguille.cpp:156-179 | the section and its objects are gone, the active number kept if it still is one |
| Aiguilles.HtmlAiguille.RemoveSectionAt | src/html_aiguille.cpp:181-186 | the same by number, for any visibility before, with the exact condition for just the active section to show still |
| Aiguilles.HtmlAiguille.SetActiveSection | src/html_aiguille.cpp:201-215 | hides the active section and shows the one given; a wrong number changes nothing |
| Aiguilles.HtmlAiguille.Clear | src/html_aiguille.cpp:42-49 | ends with no section and no object |

## Left out

- Adopting, letting go, assigning and destroying nodes while a page is being built: the family of nodes is
  fixed during a page.
- Hooks of inheriting classes (`has_adopted`, `path_has_changed` of html_button and the like): what they
  do is an ordinary signalled change before or after the call.
- html_form asks its children with the GET method when the request is not for it: here they are asked with
  the method of the request.
- `assign_anchor` is a step of the runs of `PageRuns` only: the anchor of an object of the class
  `BodyBuilder` is constant, and none is assigned while a page is being built.
- `clear_css_classes`, which changes what is displayed without signalling it.
- html_form_input_file asks its children twice in one call when they changed
  (src/html_form_input_file.cpp:255-260), the second time with the GET method; here a class asks each
  child at most once in a call.
- BodyBuilders.BodyBuilder.Adopt: the calls it leaves out, adopting the root of its own tree, are just
  those that never return in the source (`Forest.AdoptEndsIff`).
- `ignore_body_changed_from_my_children`, `set_no_CR`, css libraries and css classes.
- Exceptions thrown by an inheriting class while it builds its part.
- BodyBuilders.BodyBuilder.GetPage: nothing is said of nodes that were hidden or not asked, except that
  POST reached them at most once; that rounds end before the hundredth depends on the inheriting classes.
- The loops that draw names and anchors at random until one is unused, and that they end.
- Copying a node or a component.
- SessionProtocol.AlwaysGood: only documents that leave the store without cycle or missing name are
  loaded, as nothing in the source checks them, and no configuration with an empty name is taken, as that
  loses the lock.
- Components.SavedMentions: components that are not made of other components (text, numbers, choices,
  entrepots and the like) save plain values; html_archive_read and the html_options_ classes are made of
  others.
- A guichet destroyed or created while a change is being delivered, and guichets nested in what a guichet
  loads.
- Guichets.Guichet.Destroy: the release of a lock that no longer exists, which ends the program in the
  source, cannot happen here as locks are exact.
- `get_mask` and `is_relative` of boolean masks, and the masks themselves, which belong to libdar.
- Numbers of a JSON document that are not integers, and the order of the members of an object.
- InputUnits.HtmlFormInputUnit.OnFieldChanged: a negative number typed is treated as no number; what
  libdar makes of it is not part of this model.
- InputUnits.HtmlFormInputUnit.SetRange: a border coloured from outside with `box_set_css_class` is not
  modelled.
- Chemins.Chemin.Append: a path is not appended to itself, which in the source walks a list that grows.
- The index field of paths, visibility toggles of forms, tooltips, HTML and CSS text.
- libdar, threads, sockets, sessions, authentication, logging and the HTTP server.
