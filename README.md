# CV builder core, modelled in Dafny

This project models the logic of a React CV builder. The model covers:

- **The CV document.** It has a `basic` profile, five ordered sections (education, experience, projects, skills, social) and a `design` record.
- **The creation wizard.** It has seven steps. Moving forward is gated by a per-step validation. An effect adds an empty record whenever a list step's section is empty. The final step POSTs the document.
- **The in-place editor.** It fetches a stored CV, lets the user edit any of seven tabs, and PUTs the document back with no validation.
- **The resume layout.** It is a pure projection from a document to a visual tree: design tokens with defaults, a name placeholder, fields shown only when truthy, and no block for an empty section.
- **The gallery of saved CVs.**
  - A delete filters the CV out by id.
  - The client-side PDF export scales the image to an A4 page and slices it into pages.
  - The share links use `encodeURIComponent`, modelled with its inverse and a round-trip proof.
- **The dashboard feed.** It loads five CVs per page until the server returns an empty page.
- **The sign-in and sign-up forms.** Each field has a rule, the forms keep an error map, and submitting is gated on that map.

Each network response (a fetched CV, a page of CVs, a save, a delete, a login or a registration) is an input to the method that handles it. The rasteriser is an input too: it yields a canvas size or fails.

The JavaScript behaviour the code relies on is written out in module `Js`. It covers:

- truthiness;
- the `v || fallback` idiom;
- `Number(s)`, and the loose comparisons `<` and `>` that convert text to a number;
- how React renders `0 && x`, which is the text "0".

Components hold their state in classes: `Wizard.CreationWizard`, `InPlaceEditing.InPlaceEditor`, `Feed.CvFeed`, `Gallery.CvGallery`, `Export.Body`, `Login.LoginForm` and `Register.RegisterForm`. Each handler is a method whose `ensures` clauses state the whole new state.

### How React's scheduling is modelled

A React effect runs after any render in which one of its dependencies changed. The wizard's auto-append effect depends on the step and on the five section lengths. The model applies it at the end of every handler that can change one of those values. The state a handler leaves is therefore the state React settles into.

`Wizard.CreationWizard.Valid` is an invariant that every handler preserves. It says three things:

- the step is in range;
- a list step always shows at least one record;
- every step before the current one passes its own rule.

The third part depends on the seed. It holds when the wizard starts blank, or when the seed passes every step and the wizard holds it by value, so that the wizard's edits never reach it. `Wizard.DemoPassesAll` proves that the demonstration data passes every step exactly when the signed-in user's own e-mail, if set, has the e-mail shape.

In the code the seeded records are the seed's own objects, so an edit of a seeded record also changes the seed. Module `SeedSharing` models that sharing. It shows a seeded wizard posting a CV that fails the Education step (see the findings).

### Behaviour worth knowing

- **Auto-append after emptying a section.** The section lengths are dependencies of the auto-append effect. The effect therefore fires again when the last record of the current step's section is removed. See `Wizard.RemovingLastRecordReappends`.
- **Export cleanup.** The export removes its off-screen container only after a successful save. The failure path does not clean up (see the findings).

## Model

| member | source | states |
|---|---|---|
| Js.Or | src/layouts/Layout1.js:5-9 | `v \|\| fallback` yields the value's text exactly when the value is truthy (and that text is non-empty), and the fallback otherwise |
| Js.OrValue | src/components/NewUserLayouts.js:14-16 | `v \|\| fallback` kept as a value is the value itself when truthy and the fallback otherwise; a truthy fallback makes the result truthy |
| Js.OrElse | src/pages/Editor.js:178 | the text shown is the server's message or the fallback; a non-empty server message always wins; with a non-empty fallback the text is never blank |
| Js.NumberTextRoundTrip | src/pages/Editor.js:304 | `Number(String(n))` is n for every integer, so a percentage typed as digits compares by its value |
| Patterns.EmailMatchesRegex | src/pages/Editor.js:103-104 | the scanning e-mail test accepts exactly the strings matched by `^[^\s@]+@[^\s@]+\.[^\s@]+$`, read piece by piece |
| Patterns.EmailExamples | src/pages/Editor.js:103-107 | "a@b.co" passes; "a@b", "a.com", "", a string with a space, one with two `@`, an empty local part, and a dot at the edge of the domain all fail |
| Patterns.HttpUrlShape | src/pages/Editor.js:144 | an accepted link starts with `http:` or `https:` and contains no whitespace anywhere |
| Patterns.UrlExamples | src/pages/Editor.js:144 | http and https links pass; a link with no scheme, an ftp link, an empty string, a bare scheme and a link containing a space fail |
| Patterns.ContactExamples | src/pages/Register.js:33 | exactly ten ASCII digits pass; nine, eleven, a dash and the empty string fail |
| Document.Cv.WithItems | src/pages/Editor.js:186 | `{ ...cv, [section]: xs }` replaces that one section and leaves every other section and both scalar groups unchanged |
| Document.Cv.WithScalars | src/pages/EditEditor.js:63 | `{ ...cv, [group]: m }` replaces that one group and leaves the other group and every section unchanged |
| Document.AddItem | src/pages/Editor.js:58-63 | appends exactly one empty record to the named section; nothing else changes |
| Document.Splice1InRange | src/pages/Editor.js:183-187 | removing an index in range leaves n-1 records: those before i in place and those after i shifted down by one, with no gap |
| Document.Splice1OutOfRange | src/pages/Editor.js:183-187 | an index at or past the end removes nothing; a negative index removes the record counted from the end; an index below -n is clamped to 0 and removes the first record (the start index is `Document.SpliceStart`) |
| Document.RemoveItem | src/pages/Editor.js:183-187 | the named section becomes the spliced copy; the other sections and both groups are unchanged |
| Document.UpdateItem | src/pages/Editor.js:188-192 | sets key k of record i and changes nothing else (same length, other records, other keys, other sections); with no record i the write throws and the document stays as it was |
| Document.UpdateField | src/pages/EditEditor.js:62-64 | key k of `basic` or `design` takes the new value; every other key, the other group and every section are unchanged |
| Document.SectionOfTabInjective | src/pages/Editor.js:392 | "+ Add" on steps/tabs 1 to 5 names education, experience, projects, skills and social in that order, with no two tabs naming the same section |
| Document.AddThenRemoveLast | src/pages/EditEditor.js:72-80 | adding a record and then removing the new last record gives back the original document |
| Document.UpdateKeepsShape | src/pages/Editor.js:188-192 | a successful item update never changes the length of any section |
| Document.UpdateFieldLastWins | src/pages/EditEditor.js:62-64 | two edits of the same key keep only the later value |
| Document.UpdateFieldUndo | src/pages/EditEditor.js:62-64 | writing a key's previous value back restores the document |
| Document.UpdateItemUndo | src/pages/EditEditor.js:66-70 | writing a record key's previous value back restores the document |
| Wizard.FirstInvalid | src/pages/Editor.js:110-149 | the loop over a section returns the index of the first record that breaks the step's rule, and -1 exactly when every record keeps it |
| Wizard.AutoAppend | src/pages/Editor.js:65-91 | after the effect, a list step's section is non-empty; an empty section becomes exactly one empty record; a non-empty section and every other section are left alone |
| Wizard.SeedingSettles | src/pages/Editor.js:47-54 | the seeding effect `Wizard.Seeded` sets `cv.design`, which re-triggers it; run again, it changes nothing, so the effect settles after one more run |
| Wizard.DesignEdit | src/pages/Editor.js:47-54 | as written: without a seed a design edit is the intended one; with a seed every profile and section edit is lost; with a layout design the result is the seeded document, whatever the document and the edit were |
| Wizard.IntendedDesignEdit | src/pages/Editor.js:405-407 | the edit a design control is meant to make: that design key takes the value, every other key and the rest of the document are kept |
| Wizard.StepFrame | src/pages/Editor.js:94-154 | a step's verdict reads only `basic` (step 0) or that step's own section |
| Wizard.PassedFrame | src/pages/Editor.js:94-154 | changing only the current step's section keeps every earlier step passed |
| Wizard.CreationWizard.constructor | src/pages/Editor.js:27-54 | the wizard starts on step 0 with no error, holding the default document, or the seeded one when a seed is passed |
| Wizard.CreationWizard.ValidateStep | src/pages/Editor.js:94-154 | clears `error`, returns true exactly when the step's rule holds, and otherwise leaves exactly that step's message |
| Wizard.CreationWizard.NextStep | src/pages/Editor.js:156-159 | moves to min(step+1, 6) only when the step validates, and stays otherwise; the invariant (every earlier step passed, non-empty list step) is kept |
| Wizard.CreationWizard.PrevStep | src/pages/Editor.js:161-163 | moves to max(step-1, 0) with no validation and leaves `error` alone |
| Wizard.CreationWizard.SaveCV | src/pages/Editor.js:165-180 | posts the document only when the Design step validates; a rejected save shows the server's message or "Failed to save CV"; corrected: with the seed held by value, every posted document passes every step when the seed did |
| Wizard.CreationWizard.AddItem | src/pages/Editor.js:58-63 | appends one empty record to the current step's section and keeps the invariant |
| Wizard.CreationWizard.AddForStep | src/pages/Editor.js:392 | "+ Add" appends to the section the step index names |
| Wizard.CreationWizard.RemoveItem | src/pages/Editor.js:183-187 | removes the record, then the auto-append effect re-fills a section that became empty |
| Wizard.CreationWizard.UpdateItem | src/pages/Editor.js:188-192 | updates the record when it exists (reporting success) and changes nothing when it does not |
| Wizard.CreationWizard.SetBasicField | src/pages/Editor.js:358-380 | a Basic input changes only its key of `basic` |
| Wizard.CreationWizard.SetDesignField | src/pages/Editor.js:405-442 | as written: a Design control's edit, followed by the seeding effect it re-triggers |
| Wizard.CreationWizard.SetDesignFieldIntended | src/pages/Editor.js:405-442 | corrected: a Design control changes only its key and keeps the wizard's invariant |
| Wizard.BasicStepRule | src/pages/Editor.js:97-108 | step 0 passes exactly when name and email are truthy and the email has the e-mail shape |
| Wizard.BasicStepExamples | src/pages/Editor.js:97-108 | with a name set: "a@b.co" passes, "a@b" and "a.com" give "Invalid email format.", an empty email gives "Name and Email are required." |
| Wizard.StepsThatAlwaysPass | src/pages/Editor.js:110-153 | a list step with no records passes, and the Design step passes whatever the document |
| Wizard.SkillBoundaries | src/pages/Editor.js:134-141 | percentages 0 and 100 pass, -1 and 101 (number or text) fail, a missing percentage passes, a missing name fails, and the non-numeric "85%" passes because NaN compares false |
| Wizard.SocialExamples | src/pages/Editor.js:142-149 | an https link, an empty link and no link pass; a link without a scheme fails |
| Wizard.AutoAppendOnEntry | src/pages/Editor.js:65-91 | entering a list step with an empty section adds exactly one empty record, a non-empty section gets nothing, and running the effect again changes nothing |
| Wizard.RemovingLastRecordReappends | src/pages/Editor.js:85-91 | removing the only record of the current step's section brings back one empty record |
| Wizard.FontChoiceLostAfterSeeding | src/pages/Editor.js:405-407 | concretely, picking "Inter" after starting from the Classic layout leaves "Arial, sans-serif", where the intended edit gives "Inter" |
| Wizard.DemoPassesAll | src/components/NewUserLayouts.js:12-36 | the demonstration CV takes the signed-in user's name, e-mail and contact where they are set; it passes every step (rule and non-empty list sections) exactly when the user's own e-mail, if set, has the e-mail shape |
| SeedSharing.Mount | src/pages/Editor.js:47-54 | after seeding, record k of each section is the seed's record k, the same object |
| SeedSharing.SharedUpdate | src/pages/Editor.js:188-192 | the document gets the item update; when the record is a seed object the seed gets the same update, and otherwise the seed is unchanged; the sharing invariant is kept |
| SeedSharing.SharedRemove | src/pages/Editor.js:183-187 | the array is copied, so the seed keeps every record, the removed one included; the sharing invariant is kept |
| SeedSharing.SharedAdd | src/pages/Editor.js:58-63 | the new `{}` is shared with no seed record; the sharing invariant is kept |
| SeedSharing.SharedAutoAppend | src/pages/Editor.js:65-91 | the auto-append effect on the shared state is `Wizard.AutoAppend` on the document, and the seed is unchanged |
| SeedSharing.SharedDesignEdit | src/pages/Editor.js:47-54 | a design edit re-runs the seeding effect over the seed as the earlier edits left it, and every record is a seed object again |
| SeedSharing.SharedSeedPostsFailingCv | src/pages/Editor.js:165-192 | from the Classic layout, clearing a seeded degree, removing that record and filling in the re-added one gives a CV that passes every step; a font pick then brings the cleared record back, and the Design step's check still passes, so the CV posted fails the Education step |
| Layout.SectionBlocks | src/layouts/Layout1.js:40-164 | a section has a block exactly when it has records; that block is in the heading colour and holds one entry per record, in order (the entries are `Layout.ItemsView`) |
| Layout.BlockCount | src/layouts/Layout1.js:40-164 | the page has one block per non-empty section and none for an empty one |
| Layout.NamePlaceholder | src/layouts/Layout1.js:23-28 | the heading shows the name when it is truthy and "Your Name" otherwise, in the heading colour |
| Layout.ProfileLines | src/layouts/Layout1.js:30-36 | the e-mail, contact and intro lines appear exactly when their field is truthy (each is a `v && x` guard, `Layout.Guarded`) |
| Layout.DefaultTokens | src/layouts/Layout1.js:5-9 | an empty design gets the tokens (`Layout.TokensOf`) "Arial", "16px", "#1a1a1a", "#1e40af" and "#2563eb" |
| Layout.HeadingFollowsAccent | src/layouts/Layout1.js:8-9 | heading and accent colours coincide exactly when `accentColor` is set |
| Layout.FontSizeExamples | src/layouts/Layout1.js:6 | a size of 14 gives "14px"; 0 and "" fall back to "16px" |
| Layout.ChipExamples | src/layouts/Layout1.js:128 | a chip shows "(p%)" only for a truthy percentage (0 and a missing one give no suffix), and is drawn in the accent colour |
| Layout.AccentUse | src/layouts/Layout1.js:118-159 | exactly the skill entries are chips; every chip and every social link is drawn in the accent colour |
| Layout.SocialEntry | src/layouts/Layout1.js:146-160 | a truthy link is always shown as a link; with neither platform nor link set, the entry is empty |
| Layout.ZeroGuard | src/layouts/Layout1.js:53 | a numeric percentage of 0 renders as the stray text "0" |
| InPlaceEditing.PrintTitle | src/pages/EditEditor.js:51-54 | the print title is the name + ".pdf" when the name is truthy, and "Resume.pdf" otherwise; it always ends in ".pdf" |
| InPlaceEditing.CorrectedLoad | src/pages/EditEditor.js:41-57 | the intended outcome of a fetch: loading always ends, and a failed or empty fetch shows "CV Not Found" (the screens are `InPlaceEditing.ScreenOf`: "Loading..." while loading, "CV Not Found" with no document, the editor otherwise) |
| InPlaceEditing.InPlaceEditor.constructor | src/pages/EditEditor.js:25-29 | the editor starts on the first tab, loading, with no document |
| InPlaceEditing.InPlaceEditor.Load | src/pages/EditEditor.js:32-48 | as written: a response fills in its body and ends loading; a failed request leaves loading on |
| InPlaceEditing.InPlaceEditor.LoadCorrected | src/pages/EditEditor.js:32-48 | corrected: loading ends on both paths, and a first load ends on the corrected screen |
| InPlaceEditing.InPlaceEditor.SetTab | src/pages/EditEditor.js:362-372 | any of the seven tabs can be selected, in any order, with no validation |
| InPlaceEditing.InPlaceEditor.UpdateField | src/pages/EditEditor.js:62-64 | applies the document's field update to the loaded CV |
| InPlaceEditing.InPlaceEditor.UpdateItem | src/pages/EditEditor.js:66-70 | applies the item update when record i exists, and changes nothing when it does not |
| InPlaceEditing.InPlaceEditor.AddItem | src/pages/EditEditor.js:72-74 | appends `{}` to the named section |
| InPlaceEditing.InPlaceEditor.AddForTab | src/pages/EditEditor.js:396-405 | "+ Add" on tab t appends to the section tab t names |
| InPlaceEditing.InPlaceEditor.RemoveItem | src/pages/EditEditor.js:76-80 | removes the record with the splice semantics, keeping order |
| InPlaceEditing.InPlaceEditor.SaveCV | src/pages/EditEditor.js:82-93 | PUTs the whole current document with no validation; only a success leaves the page; tab and document are untouched |
| InPlaceEditing.FailedLoadKeepsSpinner | src/pages/EditEditor.js:41-45 | a failed fetch leaves the editor on "Loading..." where "CV Not Found" is intended |
| InPlaceEditing.CorrectedFailedLoadShowsNotFound | src/pages/EditEditor.js:41-45 | with the corrected effect the same failure shows "CV Not Found" |
| InPlaceEditing.LoadedEditorMatchesCorrection | src/pages/EditEditor.js:34-40 | a fetch that answers ends on the same screen in the code and in the corrected reading |
| Uri.Utf8WellFormed | src/components/ExistingCVs.js:79-81 | each character's UTF-8 bytes have a leading byte announcing their count, continuation bytes after it, and decode to the character |
| Uri.DecodeEncode | src/components/ExistingCVs.js:79-81 | `decodeURIComponent(encodeURIComponent(s)) == s` for every string |
| Uri.EncodeAlphabet | src/components/ExistingCVs.js:90-92 | encoded text uses only unreserved characters and `%`, so it has no `&`, `=`, `#`, `?`, `/` or space |
| Uri.EncodeUnreserved | src/components/ExistingCVs.js:79-81 | text made of unreserved characters is left unchanged |
| Uri.EncodeExamples | src/components/ExistingCVs.js:79-81 | a space becomes "%20", "/" becomes "%2F", ":" becomes "%3A" and "é" becomes "%C3%A9" |
| Export.ImageHeight | src/components/ExistingCVs.js:49-52 | the image keeps the canvas's aspect ratio at the page's width |
| Export.PageCountLeast | src/components/ExistingCVs.js:54-65 | the page count is positive, its pages cover the image, and one page fewer (when there is more than one) does not |
| Export.FewerPagesDoNotCover | src/components/ExistingCVs.js:54-65 | no positive number of pages below the page count covers the image |
| Export.PageCountUnique | src/components/ExistingCVs.js:54-65 | max(1, ceil(h/p)) is the only positive count with that least-cover property |
| Export.PageCountExamples | src/components/ExistingCVs.js:54-65 | an image 2.4 pages high takes 3 pages; empty, half-page and one-page images take 1 page; exactly two pages take 2 |
| Export.Paginate | src/components/ExistingCVs.js:54-65 | the slicing loop draws max(1, ceil(imgHeight/pdfHeight)) pages, page k at offset -k·pdfHeight |
| Export.FileName | src/components/ExistingCVs.js:67 | the saved file's name always ends in ".pdf" after a non-empty stem: the name when it is truthy, "my_cv" otherwise |
| Export.PdfFor | src/components/ExistingCVs.js:45-67 | the saved PDF carries the file name, the layout of the CV, the scaled image height, and one offset per page |
| Export.Offsets | src/components/ExistingCVs.js:53-64 | the first page draws the image at 0 and each further page one page height higher than the one before; with a positive page height no two pages draw the same slice |
| Export.Body.Download | src/components/ExistingCVs.js:32-74 | as written: a rendered canvas gives the paginated PDF and its container is removed; a rasteriser failure alerts and leaves one more container attached |
| Export.Body.DownloadScoped | src/components/ExistingCVs.js:32-74 | corrected: the same PDF and alert, with no container left on either path |
| Export.FailedExportsLeak | src/components/ExistingCVs.js:70-73 | two failed exports leave two containers attached |
| Export.ScopedExportsDoNotLeak | src/components/ExistingCVs.js:68-69 | with the scoped export, a failure and a success leave none |
| Feed.CvFeed.constructor | src/pages/Dashboard.js:13-16 | the feed starts empty, on page 1, idle, with more to load |
| Feed.CvFeed.BeginLoad | src/pages/Dashboard.js:19-23 | sends no request while a load runs or once the feed is exhausted; otherwise requests the current page with limit 5 |
| Feed.CvFeed.FinishLoad | src/pages/Dashboard.js:26-36 | an empty page ends the feed; a non-empty page is appended in order and advances the page; a failure changes nothing; loading is cleared in every case |
| Feed.CvFeed.LoadCVs | src/pages/Dashboard.js:19-37 | one uninterrupted load: no request exactly when the feed is exhausted; otherwise the outcomes of FinishLoad, with loading false afterwards |
| Feed.CvFeed.HandleScroll | src/pages/Dashboard.js:44-51 | a scroll sends a page request exactly when `innerHeight + scrollY + 50 >= scrollHeight` (`Feed.ScrollTriggers`), no load is running and the feed is not exhausted; otherwise nothing changes, and a request is for the current page with limit 5 |
| Feed.OverlappingTriggersSendOneRequest | src/pages/Dashboard.js:20 | a second trigger while the first load awaits its answer sends no request |
| Feed.ExhaustedFeedStaysQuiet | src/pages/Dashboard.js:26-27 | after an empty page no later load sends a request |
| Feed.GalleryStays | src/pages/Dashboard.js:88-98 | the dashboard (`Feed.HomeView`) shows the new-user layouts exactly while no CV has been loaded; once the gallery shows, appending pages keeps it, with the earlier CVs first |
| Gallery.WithoutId | src/components/ExistingCVs.js:24 | the filter keeps exactly the CVs whose id differs and never grows the list |
| Gallery.WithoutIdConcat | src/components/ExistingCVs.js:24 | the filter keeps the original order: filtering a concatenation is concatenating the filtered parts |
| Gallery.WithoutIdAbsent | src/components/ExistingCVs.js:24 | nothing is removed when no CV has the id |
| Gallery.WithoutIdIdempotent | src/components/ExistingCVs.js:24 | filtering twice is filtering once |
| Gallery.WhatsAppLink | src/components/ExistingCVs.js:76-85 | the link is the fixed WhatsApp message prefix followed by text that decodes back to `Url + "/cv/" + id` |
| Gallery.LinkedInLink | src/components/ExistingCVs.js:87-96 | the link is the LinkedIn share prefix followed by a `url` value that decodes back to `Url + "/cv/" + id` |
| Gallery.ShareParameterIsOneValue | src/components/ExistingCVs.js:76-96 | whatever the address holds, the encoded parameter contains no `&`, `#` or `=`, so it stays one query value |
| Gallery.CardTitle | src/components/ExistingCVs.js:103 | a card's title is the name when it is truthy and "Untitled CV" otherwise, so it is never empty |
| Gallery.CardIntro | src/components/ExistingCVs.js:105 | a card's intro is empty exactly when the intro is falsy |
| Gallery.CvGallery.constructor | src/components/ExistingCVs.js:15-16 | no delete or share dialog is open at first |
| Gallery.CvGallery.AskDelete | src/components/ExistingCVs.js:134 | "Delete" opens the confirmation for that CV |
| Gallery.CvGallery.AskShare | src/components/ExistingCVs.js:128 | "Share" opens the share dialog for that CV |
| Gallery.CvGallery.ConfirmDelete | src/components/ExistingCVs.js:18-30 | as written: any HTTP answer, a refusal included, filters the CV out and closes the dialog; a network failure changes nothing |
| Gallery.CvGallery.ConfirmDeleteChecked | src/components/ExistingCVs.js:18-30 | corrected: only a successful answer removes the CV and closes the dialog |
| Gallery.CvGallery.ShareOnWhatsApp | src/components/ExistingCVs.js:76-85 | opens the WhatsApp link and closes the share dialog |
| Gallery.CvGallery.ShareOnLinkedIn | src/components/ExistingCVs.js:87-96 | opens the LinkedIn link and closes the share dialog |
| Gallery.RefusedDeleteRemovesCard | src/components/ExistingCVs.js:18-25 | a DELETE answered with a refusal still removes the card |
| Gallery.RefusedCheckedDeleteKeepsCard | src/components/ExistingCVs.js:18-30 | with the checked delete, a refused CV stays listed and the dialog stays open |
| Login.FieldError | src/pages/Login.js:59-66 | an empty value gives "This field is required"; otherwise a malformed e-mail gives "Invalid email format" and a password shorter than 6 gives the length message; each holds exactly in its case |
| Login.FailingFields | src/pages/Login.js:57-70 | the submit-time map holds exactly the failing fields, each with its message |
| Login.FormPassesRule | src/pages/Login.js:57-72 | the map is empty exactly when the e-mail has the e-mail shape and the password has six characters or more |
| Login.CollectErrors | src/pages/Login.js:57-68 | the `forEach` fills exactly the failing-field map |
| Login.LoginForm.constructor | src/pages/Login.js:11-14 | the form starts with two empty fields, no errors and no session |
| Login.LoginForm.Validate | src/pages/Login.js:17-30 | live validation records the field's message, "" included, and changes no other entry |
| Login.LoginForm.HandleChange | src/pages/Login.js:32-35 | stores the value and records its current message, so every shown message stays current |
| Login.LoginForm.Submit | src/pages/Login.js:55-91 | replaces the errors by the failing fields and posts only when there are none; a success opens the session, a failure shows the server's message or "Something went wrong"; loading ends false |
| Login.FieldErrorExamples | src/pages/Login.js:17-30 | empty fields are required; "a@b" is malformed and "a@b.co" passes; "12345" is too short and "123456" passes |
| Register.FieldError | src/pages/Register.js:20-36 | every field is required; the e-mail rule applies only to the e-mail, the length rule only to the password, and the ten-digit rule only to the contact; each message holds exactly in its case |
| Register.Revalidated | src/pages/Register.js:48 | after validating every entry of the form, each field's entry is its current message and other entries are kept |
| Register.ValidateEach | src/pages/Register.js:48 | the `forEach` of `validate` calls produces exactly the revalidated map |
| Register.StaleGate | src/pages/Register.js:50 | on a current error map, the gate stops exactly when some touched field fails |
| Register.PassesByField | src/pages/Register.js:20-36 | the whole-form rule holds exactly when every field's own message is "" |
| Register.FreshGate | src/pages/Register.js:48-50 | gating on the revalidated map stops exactly when the form breaks the rule (username set, e-mail shape, ten-digit contact, six-character password) |
| Register.GatesAgreeWhenAllTouched | src/pages/Register.js:48-50 | once every field has been touched, the stale gate and the fresh gate agree |
| Register.RegisterForm.constructor | src/pages/Register.js:9-17 | the form starts with four empty fields and no errors |
| Register.RegisterForm.HandleChange | src/pages/Register.js:41-44 | stores the value and records only that field's current message |
| Register.RegisterForm.Post | src/pages/Register.js:52-63 | a success alerts the server's message or "Registration successful!" and goes to /login; a failure shows the server's message or "Something went wrong"; loading ends false |
| Register.RegisterForm.SubmitForm | src/pages/Register.js:46-64 | as written: every field is revalidated, but the form is posted exactly when the map of the previous render has no message |
| Register.RegisterForm.SubmitFormFresh | src/pages/Register.js:46-64 | corrected: the form is posted exactly when it passes the rule |
| Register.UntouchedFormIsPosted | src/pages/Register.js:48-50 | clicking Register on the untouched form posts four empty fields, while leaving "required" messages on screen |
| Register.UntouchedFormIsRefused | src/pages/Register.js:48-50 | the corrected gate refuses the untouched form |
| Register.FieldErrorExamples | src/pages/Register.js:20-36 | "98765" is not ten digits and "9876543210" is; an empty contact is required; a username needs only to be set; a malformed e-mail and a short password fail |

## Left out

- Network requests are not modelled (axios, `fetch`, headers, tokens). Each response or failure is an input to the method that handles it.
- React scheduling is not modelled. Each handler runs to completion before the next one starts.
  - Two scroll events handled before a re-render share a stale `loadCVs` closure that still sees `loading` false. Both can request the same page. That concurrent case is not modelled.
- Rendering to a canvas is not modelled: `html2canvas`, `jsPDF` drawing, `createRoot`, the 500 ms wait and `toDataURL`. The rasteriser is an input that yields a canvas size or fails. The A4 page size is taken as 595.28 × 841.89 points, converted to millimetres.
- `alert`, `window.open`, `console.log`, CSS classes and `navigate` are not modelled. Navigation is modelled only where it ends a flow: the `saved`, `left` and `route` fields and the login session.
- The preview modals of the gallery and of the layout picker are not modelled. They only show the layout, which is modelled.
- `useReactToPrint` is modelled only through its document title.
- Logout, routing and the protected route are not part of this model (src/App.js, the dashboard header).
- Google sign-in is not part of this model (src/components/SocialLogin.js). It is made of foreign calls.
- The layout list fetch is not part of this model (src/pages/Layouts.js).
- From src/components/NewUserLayouts.js the model keeps only the demonstration CV and the Classic preset.
- Record values are strings or integers. `null`, booleans, nested objects and fractional numbers are not modelled.
  - Fractional numbers come from the server and from the UI. A skill's percentage (src/pages/Editor.js:304, src/pages/EditEditor.js:262) and the font size (src/pages/Editor.js:423, src/pages/EditEditor.js:325) are stored as `Number(e.target.value)`, so "50.5" is stored as 50.5. The skills rule (src/pages/Editor.js:136) and the layout's font size (src/layouts/Layout1.js:6) then read that value.
  - A document missing one of its seven keys makes the layout throw on `undefined.length`. That crash is not modelled.
- Js.ToNumber: reads only an optional sign followed by decimal digits, and "" as 0. JavaScript's `Number` also trims whitespace and accepts decimals, exponents and hex. Those strings are treated as NaN here.
- Document.UpdateItem: copy-on-write. The source writes `updated[i][key]` into a record object that the previous state shares. The component classes do not capture that aliasing, and `Wizard.CreationWizard` holds its seed by value. Module `SeedSharing` models the records a seeded wizard shares with its seed, with an origin index per record rather than heap objects.
- Export.ImageHeight, Export.PageCount and Export.Paginate: lengths are exact reals. The code computes in doubles: `imgHeight` is rounded, and `heightLeft -= pdfHeight` adds up rounding error. For an image within rounding distance of a whole number of pages, the code can draw one page more or one fewer than max(1, ceil(h/p)).
- Login.FieldError: counts the password's length in Unicode code points, where JavaScript counts UTF-16 code units. The two differ only for characters outside the Basic Multilingual Plane.
- Register.FieldError: counts the password's length in code points, as Login.FieldError does.
- Patterns.IsEmail: works over Unicode scalar values, so lone surrogates, which a JavaScript string may hold, cannot occur.
- Uri.Encode: likewise has no lone surrogates, on which `encodeURIComponent` throws.

## Findings

| source | as written | input that shows it | evidently intended | confidence | as-written member | corrected member |
|---|---|---|---|---|---|---|
| src/pages/Editor.js:47-54 | `cv.design` is a dependency of the seeding effect. Every design edit in a wizard opened from a layout re-runs the effect, which puts the seed's data and the layout's design back. | Start from the Classic layout and pick the font "Inter": the font stays "Arial, sans-serif" (`Wizard.FontChoiceLostAfterSeeding`). | Seed once when the wizard opens; a design control changes only its own key. | not executed | Wizard.DesignEdit | Wizard.IntendedDesignEdit |
| src/pages/EditEditor.js:41-45 | The failure path calls `setError`, which the component never declares. The handler throws before `setLoading(false)`. | A failed GET leaves "Loading..." on screen for good (`InPlaceEditing.FailedLoadKeepsSpinner`). | Loading ends and "CV Not Found" is shown. | not executed | InPlaceEditing.InPlaceEditor.Load | InPlaceEditing.InPlaceEditor.LoadCorrected |
| src/components/ExistingCVs.js:32-74 | The off-screen container is removed only after a successful save. The catch block does not clean up. | Two exports whose rasteriser throws leave two containers attached (`Export.FailedExportsLeak`). | Remove the container on every path, as a `finally` block would. | not executed | Export.Body.Download | Export.Body.DownloadScoped |
| src/components/ExistingCVs.js:18-30 | `fetch` resolves on an HTTP error status, and `response.ok` is never checked. A refused DELETE still removes the card. | A DELETE answered with 403 (`Gallery.RefusedDeleteRemovesCard`). | Remove the card only when the server confirms the delete. | not executed | Gallery.CvGallery.ConfirmDelete | Gallery.CvGallery.ConfirmDeleteChecked |
| src/pages/Register.js:46-50 | The gate reads the error map of the previous render, not the one its own `validate` calls queue. Untouched fields never stop the request. | Click "Register" on the blank form: four empty fields are posted (`Register.UntouchedFormIsPosted`). | Gate on the fresh validation, as src/pages/Login.js:57-72 does. | not executed | Register.RegisterForm.SubmitForm | Register.RegisterForm.SubmitFormFresh |
| src/pages/Editor.js:47-54 | `{ ...cvData }` copies only the top level, so the seeded records are the seed's own objects, and `updateItem` (line 190) writes into them. The seeding effect re-runs on each design edit and brings the edited seed records back, while `saveCV` (line 166) checks only the Design step. | From the Classic layout: clear the seeded record's degree, remove the record, fill in the re-added one, go on to Design, pick a font and save. The posted CV fails the Education step (`SeedSharing.SharedSeedPostsFailingCv`). | Seed the wizard with a copy of the data, so that every posted CV passes every step. | not executed | SeedSharing.SharedSeedPostsFailingCv | Wizard.CreationWizard.SaveCV |
