# Admin dashboard list logic, modelled in Dafny

This project models the in-memory list manipulation behind four screens of a
browser-based CMS admin dashboard. Each screen holds a list of records
(categories, products, content drafts, files) and a little UI state. User
actions replace the list with a new one by filtering, appending, prepending or
replacing by id.

- `lists.dfy` (`Lists`): JavaScript's `filter` and `find`, and distinct keys.
- `types.dfy` (`Types`): the records of `types.ts`, JavaScript truthiness,
  `startsWith` and `trim`.
- `categories.dfy` (`Categories`): the category hierarchy of
  `components/CategoryManager.tsx`. It covers `buildTree`, which turns the flat
  list with `parentId` back-pointers into a forest, and the add, delete and
  select-parent actions. The hierarchy invariant covers distinct ids, no
  dangling parent, and consistent levels.
- `products.dfy` (`Products`): the product catalog of
  `components/ProductCreator.tsx`. It covers the list/create/edit mode
  machine, the required-field check and defaults of `handleSave`, append in
  create mode and replace-by-id otherwise, the category label, and the image
  picker.
- `drafts.dfy` (`Drafts`): draft review (`components/ContentReview.tsx`),
  covering select, edit, AI polish and publish.
- `files.dfy` (`Files`): the file list (`components/FileManager.tsx`),
  covering upload (prepend), delete (filter by id) and the `onSelect`
  hand-off.

Each component is a class whose fields are the component's state. Its methods
replace the list and say the whole new state in terms of pure functions. The
lemmas beside them prove what those functions promise.

Browser facilities are parameters. `crypto.randomUUID()` is a fresh id that is
non-empty and not yet in the list. `URL.createObjectURL` and the date are
plain strings. The text-polishing service is a function `string -> string`.
Each `alert` becomes a `false` result that leaves the state unchanged.

`buildTree` recurses without shrinking its argument, so in the source it stops
only on acyclic data. The model requires `Leveled`: a child is strictly deeper
than every record carrying its parent's id. Termination uses the level bound as
its measure. `Hierarchy`, the invariant the screen keeps, implies `Leveled`.

Edge cases the code handles and the model keeps:

- `addCategory` does not check that the selected parent exists. A missing one
  yields level 1 and a dangling parent (`AddUnderMissingParent`). From the UI
  the selection always names an existing record (`CategoryManager.Valid`).
- `deleteCategory` accepts any id. An absent one changes nothing
  (`DeleteAbsentUnchanged`).
- JavaScript truthiness is kept. The empty string is falsy for the selected
  parent, the form's id, name, category and image id, the draft selection,
  and the category name shown. A price of 0 or NaN is falsy.

## Model

| member | source | states |
|---|---|---|
| `Lists.Filter` | components/CategoryManager.tsx:17 | `filter` returns at most as many elements as it got, and only elements of the input that pass the predicate |
| `Lists.FilterKeeps` | components/CategoryManager.tsx:45 | every element that passes the predicate is kept by `filter` |
| `Lists.FilterConcat` | components/FileManager.tsx:32 | `filter` distributes over concatenation, so the kept elements stay in their original order |
| `Lists.FilterAllKept` | components/FileManager.tsx:32 | a `filter` that rejects nothing returns the list unchanged |
| `Lists.FilterDropOne` | components/CategoryManager.tsx:45 | a `filter` that rejects exactly one position returns the list with only that element removed |
| `Lists.FilterMultiplicity` | components/CategoryManager.tsx:45 | `filter` keeps every occurrence of an accepted value and no occurrence of a rejected one |
| `Lists.FilterDistinct` | components/FileManager.tsx:32 | filtering a list with distinct keys gives a list with distinct keys |
| `Lists.FindIndex` | components/ContentReview.tsx:16 | the result is the first position that satisfies the predicate, or none exactly when no position does |
| `Lists.Find` | components/CategoryManager.tsx:32 | `find` returns the first satisfying element, or none exactly when no element satisfies the predicate |
| `Lists.DistinctKeyUnique` | types.ts:19-25 | with distinct ids, two positions with the same id are the same position |
| `Types.TrimStart` | components/CategoryManager.tsx:27 | the result is a suffix of the input without leading white space, and only white space was dropped |
| `Types.TrimEnd` | components/CategoryManager.tsx:27 | the result is a prefix of the input without trailing white space, and only white space was dropped |
| `Types.TrimEmptyIff` | components/CategoryManager.tsx:27 | `name.trim()` is empty exactly when every character of `name` is ECMAScript white space or a line terminator |
| `Categories.HierarchyIsLeveled` | components/CategoryManager.tsx:15-22 | on a consistent hierarchy every child is deeper than its parent, so `buildTree` terminates on it |
| `Categories.MaxLevel` | components/CategoryManager.tsx:15-22 | no category is deeper than the bound of the termination measure |
| `Categories.Floor` | components/CategoryManager.tsx:20 | every record whose id is `p` is shallower than the floor, the floor is 0 or one more than such a record's level, and it does not exceed the maximum level plus one; with `Leveled`, every child of `p` is therefore at least as deep as the floor |
| `Categories.BuildTreeRoots` | components/CategoryManager.tsx:15-21 | the top of `buildTree(cats, p)` is exactly the records with `parentId == p`, unchanged and in list order, each with `children == buildTree(cats, node.id)` |
| `Categories.BuildTreeLinked` | components/CategoryManager.tsx:18-21 | at every depth, each top node has `parentId == p` and each child's `parentId` is its parent node's id |
| `Categories.TopInAllNodes` | components/CategoryManager.tsx:83-85 | every top node of a forest is among the nodes the tree view renders |
| `Categories.AllNodesClosed` | components/CategoryManager.tsx:83-85 | the children of a rendered node are rendered too |
| `Categories.AllNodesBuilt` | components/CategoryManager.tsx:18-21 | if every top node is a record with its own subtree attached, then so is every node below |
| `Categories.BuildTreeNodes` | components/CategoryManager.tsx:18-21 | every node at every depth is a record of `cats` whose `children` equals `buildTree(cats, node.id)` |
| `Categories.BuildTreeComplete` | components/CategoryManager.tsx:24 | on a consistent hierarchy every category shows up in the forest built from the roots |
| `Categories.NewLevelSpec` | components/CategoryManager.tsx:32 | the new level is 0 with no selection, the parent's level + 1 under a found parent, and 1 under a missing one |
| `Categories.AddPreservesHierarchy` | components/CategoryManager.tsx:28-34 | appending the new record under no parent or under an existing one keeps ids distinct, parents existing and levels consistent |
| `Categories.AddUnderMissingParent` | components/CategoryManager.tsx:31-32 | under a selected id that no record has, the new record gets level 1 and a dangling `parentId` |
| `Categories.DeletePreservesHierarchy` | components/CategoryManager.tsx:40-45 | removing an id that no record has as parent, so only a leaf, keeps the hierarchy consistent |
| `Categories.DeleteRemovesOne` | components/CategoryManager.tsx:45 | with distinct ids, deleting the id at position k removes exactly that record and keeps the rest in order |
| `Categories.DeleteAbsentUnchanged` | components/CategoryManager.tsx:45 | deleting an id that no record carries leaves the list unchanged |
| `Categories.Toggle` | components/CategoryManager.tsx:63 | clicking a node selects it unless it was already selected, and then the selection becomes none |
| `Categories.SelectionAfterDelete` | components/CategoryManager.tsx:46 | delete clears the selection only when it equals the deleted id, otherwise the selection is kept |
| `Categories.SeedIsHierarchy` | App.tsx:11-16 | the seed list satisfies both invariants: every parent exists and the levels are consistent |
| `Categories.SeedChildren` | App.tsx:11-16 | the children of any parent in the seed list are the seed records carrying that parent, in seed order |
| `Categories.SeedLeveled` | App.tsx:11-16 | `buildTree` terminates on the seed list |
| `Categories.SeedRoots` | App.tsx:11-16 | the roots of the seed list are Electronics and Home & Garden |
| `Categories.SeedLeaf` | App.tsx:13-15 | Laptops, Accessories and Home & Garden have empty subtrees |
| `Categories.SeedUnderElectronics` | App.tsx:12-14 | Electronics has Laptops and Accessories below it, in that order |
| `Categories.SeedTree` | App.tsx:11-16 | the seed list renders as Electronics [Laptops, Accessories] followed by Home & Garden |
| `Categories.CategoryManager.constructor` | components/CategoryManager.tsx:11-12 | starts from a consistent list with an empty name input and no selected parent |
| `Categories.CategoryManager.Tree` | components/CategoryManager.tsx:24 | the rendered forest is `buildTree(categories)` itself (roots in list order, each with its exact subtree); it is linked at every depth, holds only records of the list, and holds every one of them |
| `Categories.CategoryManager.SetNewCatName` | components/CategoryManager.tsx:135 | the name input changes and nothing else does |
| `Categories.CategoryManager.AddCategory` | components/CategoryManager.tsx:26-36 | a blank name changes nothing; otherwise exactly one record is appended with the fresh id, the untrimmed name, `parentId = selectedParent` and the computed level, the name input is cleared, and the invariant holds |
| `Categories.CategoryManager.DeleteCategory` | components/CategoryManager.tsx:38-47 | refused with the list unchanged when some record has the id as parent; otherwise the records with that id are filtered out, the selection is cleared if it was that id, and the invariant holds |
| `Categories.CategoryManager.ClickNode` | components/CategoryManager.tsx:63 | the selected parent is toggled and the list is untouched |
| `Categories.CategoryManager.ClearSelection` | components/CategoryManager.tsx:122 | the selected parent becomes none and the list is untouched |
| `Products.ProductFromFields` | components/ProductCreator.tsx:30-37 | the saved product keeps the form's id when truthy and otherwise gets the fresh id, defaults `description` to `''` and `imageId` to null, and copies name and category |
| `Products.EditSaveRoundTrip` | components/ProductCreator.tsx:89 | opening a well-formed product for editing passes the required-field check, and saving it unchanged gives the same product back |
| `Products.ReplaceById` | components/ProductCreator.tsx:42 | the replace-by-id map keeps the list length |
| `Products.ReplaceByIdSpec` | components/ProductCreator.tsx:42 | every entry with the product's id is replaced by it, all others are unchanged, and the id column is the same |
| `Products.ReplaceUnmatched` | components/ProductCreator.tsx:42 | an edit whose id matches no entry leaves the list unchanged |
| `Products.ReplaceIdempotent` | components/ProductCreator.tsx:42 | saving the same edit twice equals saving it once |
| `Products.ReplaceThenFind` | components/ProductCreator.tsx:42 | after an edit whose id is present, looking up that id finds the saved product |
| `Products.UpsertShape` | components/ProductCreator.tsx:39-43 | create mode grows the list by exactly one with the new product last and earlier entries untouched; any other mode keeps length and ids |
| `Products.UpsertKeepsIdsDistinct` | components/ProductCreator.tsx:39-43 | appending a fresh id, or replacing in place, keeps the product ids distinct |
| `Products.CategoryLabel` | components/ProductCreator.tsx:75 | the label is the name of the first category with the product's `categoryId`, `'Unknown'` when that name is empty, and `'Unknown'` when there is no such category |
| `Products.CategoryLabelOfExisting` | components/ProductCreator.tsx:75 | with distinct category ids the label is the name of the product's category, unless that name is empty |
| `Products.ProductCreator.constructor` | components/ProductCreator.tsx:15-16 | starts in list mode with an empty form |
| `Products.ProductCreator.ResetForm` | components/ProductCreator.tsx:19-22 | the form becomes empty, the mode becomes list, and the products are untouched |
| `Products.ProductCreator.NewProduct` | components/ProductCreator.tsx:55 | "New Product", offered in list mode, goes to create mode with an empty form |
| `Products.ProductCreator.EditProduct` | components/ProductCreator.tsx:89 | "Edit", offered in list mode, goes to edit mode with the form set to that product |
| `Products.ProductCreator.SetName` | components/ProductCreator.tsx:129 | only the form's name changes |
| `Products.ProductCreator.SetPrice` | components/ProductCreator.tsx:143 | only the form's price changes |
| `Products.ProductCreator.SetCategory` | components/ProductCreator.tsx:153 | only the form's category changes |
| `Products.ProductCreator.SetDescription` | components/ProductCreator.tsx:167 | only the form's description changes |
| `Products.ProductCreator.SelectImage` | components/ProductCreator.tsx:222-228 | a file sets `imageId` exactly when its type is image; otherwise the form is unchanged |
| `Products.ProductCreator.HandleSave` | components/ProductCreator.tsx:24-45 | rejected with everything unchanged when name, price or category is falsy (missing, empty, 0 or NaN); otherwise upserts the built product, empties the form, returns to list mode, and keeps ids distinct |
| `Drafts.Lookup` | components/ContentReview.tsx:16 | `selectedItem` is the first draft with the selected id, and none exactly when nothing is selected or no draft has that id |
| `Drafts.LookupDistinct` | components/ContentReview.tsx:16-21 | with distinct ids, selecting a draft of the list makes that draft the selected item |
| `Drafts.Publish` | components/ContentReview.tsx:25-27 | publishing keeps the list length |
| `Drafts.PublishSpec` | components/ContentReview.tsx:25-27 | matching drafts get the edited body and status published, their id, title, author and date are kept, and every other draft is unchanged |
| `Drafts.PublishIdempotent` | components/ContentReview.tsx:25-27 | publishing twice with the same id and body equals publishing once |
| `Drafts.PublishKeepsDistinct` | components/ContentReview.tsx:25-27 | publishing keeps draft ids distinct |
| `Drafts.PublishThenLookup` | components/ContentReview.tsx:25-27 | after publishing, the draft found under that id is the one found before, with the new body and status published |
| `Drafts.SeedPublishExample` | App.tsx:18-22 | the seed drafts have distinct ids, and publishing c1 changes c1 alone |
| `Drafts.ContentReview.constructor` | components/ContentReview.tsx:12-13 | starts with no selection and an empty edit buffer |
| `Drafts.ContentReview.HandleSelect` | components/ContentReview.tsx:18-21 | `selectedId` becomes the item's id, `editBody` its body, and the selected item is that draft |
| `Drafts.ContentReview.SetEditBody` | components/ContentReview.tsx:101 | only the edit buffer changes |
| `Drafts.ContentReview.HandlePublish` | components/ContentReview.tsx:23-29 | with no truthy selection nothing changes; otherwise the list is published under the selected id with the edit buffer, and the selection is cleared |
| `Drafts.ContentReview.HandleAIPolish` | components/ContentReview.tsx:31-37 | with an empty buffer nothing changes; otherwise only `editBody` is replaced by the polish result, and the list is never touched |
| `Files.Classify` | components/FileManager.tsx:21 | the type is image exactly when the MIME string is `"image/"` followed by something, and document otherwise |
| `Files.Prepend` | components/FileManager.tsx:26 | the new item is at index 0 and the previous items follow in the same order |
| `Files.PrependKeepsDistinct` | components/FileManager.tsx:19-26 | prepending an item with a fresh id keeps file ids distinct |
| `Files.RemoveFileSpec` | components/FileManager.tsx:32 | delete removes every item with the id and keeps every other item with its multiplicity; an absent id leaves the list unchanged |
| `Files.UploadThenDelete` | components/FileManager.tsx:26-32 | deleting the item just uploaded restores the list as it was before |
| `Files.FileManager.constructor` | components/FileManager.tsx:12 | starts from a list with distinct ids, with or without an `onSelect` callback, in picker mode or not |
| `Files.FileManager.HandleFileUpload` | components/FileManager.tsx:15-28 | no file chosen leaves the list unchanged; otherwise exactly one new item is prepended |
| `Files.FileManager.DeleteFile` | components/FileManager.tsx:30-33 | outside picker mode, where the delete button is shown (line 87), the list becomes the filter by id of the previous list, with ids still distinct |
| `Files.FileManager.ClickItem` | components/FileManager.tsx:71 | a click hands that exact item to `onSelect` when one was passed and does not change the list |

## Left out

- `services/geminiService.ts` is not part of this model: the network calls to the generative-text API. `HandleAIPolish` takes the polish result as an uninterpreted function.
- `components/Reports.tsx`, `components/Sidebar.tsx` and the view switch of `App.tsx` are not part of this model. They handle charts, navigation and an async insight call. The App seed lists are used only as example instances.
- `formatSize` (components/FileManager.tsx:35-41) is left out because it uses floating-point `Math.log`, `Math.pow` and `toFixed`.
- Prices are integers rather than JavaScript doubles. `parseFloat` on the input is a `Number` parameter that may be NaN, and `toFixed(2)` display is left out. Only the falsy check on price is modelled.
- `crypto.randomUUID`, `URL.createObjectURL`, `new Date().toLocaleDateString()`, `alert` and DOM events are browser facilities. They become parameters or a `false` result.
- The await in `handleAIPolish` is left out. The model runs read, polish and write as one step, and edits made meanwhile are not modelled.
- Presentation-only state is left out: per-node `isOpen`, `dragActive`, `isPolishing`, `showFileSelector`, the parent-name display (components/CategoryManager.tsx:116-118), the image previews (components/ProductCreator.tsx:47, 76), and all JSX and CSS.
- `Categories.BuildTree`: it cannot be called on data that is not `Leveled`. That covers a parent cycle, where the source recurses forever, and also acyclic lists whose levels disagree with their parent pointers, where the source terminates. Reachable states keep levels consistent (`AddPreservesHierarchy`, `DeletePreservesHierarchy`), so the screen never holds such a list.
- `Categories.BuildTreeComplete`: it proves every category appears in the forest, not that it appears exactly once.
- `Categories.CategoryManager.ClickNode`: it requires the clicked id to be a record of the list, as every rendered node is (`BuildTreeNodes`).
- `Drafts.ContentReview.HandleSelect`: it requires the item to be in the list, as every clickable item is.
