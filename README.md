# Contact form and portfolio gallery of a fitness-studio site

The site is a one-page, right-to-left Hebrew marketing page. Almost all of it
is markup and styling. Two components hold real logic, and this project models
both in Dafny and proves what they do:

- **The contact form** (`ContactForm`). It has four text fields: name, phone,
  email and message. A validator builds a per-field error record. It checks
  that the name is not blank, that the phone matches `/^0[2-9]\d{7,8}$/`, that
  the email matches `/^[^\s@]+@[^\s@]+\.[^\s@]+$/`, and that the message is not
  blank and has a `length` of at least 10 (UTF-16 code units). A blank value always gets its field's
  "missing" message, whatever the other rule says. The component state is
  `formData`, `errors`, `isSubmitting` and `submitSuccess`. Three events drive
  it: editing a field, submitting, and the success banner expiring.
- **The portfolio gallery** (`PortfolioGallery`). It holds a fixed list of
  eight pictures, each tagged facilities, equipment or classes. A filter shows
  either all of them or the items of one category, always taken from the fixed
  list in order. While the page is loading, the grid shows eight placeholders.

Files:

- `js_string.dfy` (module `JsString`): the JavaScript string behaviour the
  validator relies on. This covers the `\s` whitespace set, which
  `String.prototype.trim` also uses (the WhiteSpace and LineTerminator code
  points of ECMAScript, listed one by one), `trim`, a string's `length` in
  UTF-16 code units, and ASCII `\d`. It also holds `IndexOf`, which is not a
  call the form makes: it is a helper used to state the shape of an accepted
  email address.
- `contact.dfy` (module `Contact`): the form's records, the per-field rules,
  the validator `Validate`, and the class `ContactForm` with methods
  `HandleChange`, `ValidateForm`, `HandleSubmit` and `SuccessTimeoutElapsed`.
- `gallery.dfy` (module `Gallery`): the gallery item type, the static list,
  the category filter and its properties, the grid that is shown, and the
  class `PortfolioGallery` with methods `HandleFilterChange` and
  `LoadingFinished`.

The form keeps an invariant, `ContactForm.Valid`, that every event preserves.
Between events no send is in progress, and the failure banner is never shown.
Every error on display is the error that the field's current value really has,
so a field edit never leaves a stale error behind. The gallery's invariant,
`PortfolioGallery.Valid`, says the list shown is always the one that the
active filter selects from the fixed list.

Two behaviours of the code are easy to miss, and the model keeps both:

- The message rule tests the untrimmed length, so a message padded with spaces
  to 10 characters passes (`PaddedShortMessageAccepted`).
- The form has a failure banner, but the only code that sets its flag is the
  `catch` branch of `handleSubmit`, and nothing in the `try` block can throw.
  The model therefore proves that `submitSuccess` is never `false`.

## Model

| member | source | states |
|---|---|---|
| `JsString.IsWhitespace` | src/components/ContactForm.tsx:62 | the `\s` and `trim` whitespace set; every whitespace character is a single UTF-16 code unit and none is a digit |
| `JsString.Utf16Length` | src/components/ContactForm.tsx:85 | a string's `length` counts UTF-16 code units: at least one and at most two per character |
| `JsString.Utf16LengthConcat` | src/components/ContactForm.tsx:85 | the `length` of a concatenation is the sum of the lengths |
| `JsString.Utf16LengthBmp` | src/components/ContactForm.tsx:85 | the `length` equals the number of characters exactly when no character lies above the Basic Multilingual Plane |
| `JsString.Trim` | src/components/ContactForm.tsx:62 | the trimmed value is empty exactly when every character is whitespace; otherwise it starts and ends with a non-whitespace character |
| `JsString.TrimInfix` | src/components/ContactForm.tsx:62 | the trimmed value is a contiguous slice of the input, and everything cut off on either side is whitespace |
| `JsString.TrimIdempotent` | src/components/ContactForm.tsx:62 | trimming an already trimmed value changes nothing |
| `Contact.FormData.With` | src/components/ContactForm.tsx:43-46 | replacing one field sets that field to the new value and leaves the other three as they were |
| `Contact.Error.Text` | src/components/ContactForm.tsx:63-86 | each of the seven messages the form can show has a non-empty Hebrew text |
| `Contact.TextsDistinct` | src/components/ContactForm.tsx:63-86 | no two errors share a text, so the message shown tells which rule failed |
| `Contact.PhoneMatches` | src/components/ContactForm.tsx:67 | the phone pattern `/^0[2-9]\d{7,8}$/`; a phone it accepts is never blank |
| `Contact.EmailMatches` | src/components/ContactForm.tsx:75 | the email pattern `/^[^\s@]+@[^\s@]+\.[^\s@]+$/`, as a choice of the '@' and '.' positions over which the regex engine backtracks; an accepted address has at least five characters, holds an '@' and is not blank |
| `Contact.FieldError` | src/components/ContactForm.tsx:61-87 | each field gets at most one error, and it is a message belonging to that field |
| `Contact.Validate` | src/components/ContactForm.tsx:58-89 | every entry of the record is filed under its own field; which fields have entries is stated by `ValidateAt` |
| `Contact.ValidateAt` | src/components/ContactForm.tsx:59-89 | a field has an entry exactly when its value fails its rule, and the entry is that rule's error; nothing from an earlier record survives |
| `Contact.NameRule` | src/components/ContactForm.tsx:62-64 | the name has an error exactly when it is blank after trimming, and that error is "missing" |
| `Contact.PhoneShape` | src/components/ContactForm.tsx:67 | the phone pattern accepts exactly the all-digit strings of length 9 or 10 that start with '0' and then a digit other than '0' or '1' |
| `Contact.PhoneRule` | src/components/ContactForm.tsx:67-72 | the phone has an error exactly when the pattern fails; the error is "missing" exactly when the phone is blank and "invalid" otherwise |
| `Contact.PaddedPhoneIsInvalid` | src/components/ContactForm.tsx:68-71 | a phone that contains whitespace but is not blank gets "invalid", not "missing", because the pattern tests the untrimmed value |
| `Contact.EmailMatchesIffShape` | src/components/ContactForm.tsx:75 | the email pattern matches exactly the strings with no whitespace, exactly one '@' not at the start, and a '.' after it that is neither right after the '@' nor last; an accepted address has exactly one '@' |
| `Contact.EmailRule` | src/components/ContactForm.tsx:75-80 | the email has an error exactly when the pattern fails; the error is "missing" exactly when the email is blank and "invalid" otherwise |
| `Contact.MessageRule` | src/components/ContactForm.tsx:83-87 | the message has an error exactly when it is blank or its untrimmed length is under 10; the error is "missing" exactly when it is blank and "too short" otherwise; the length is the `length` in UTF-16 code units |
| `Contact.PaddedShortMessageAccepted` | src/components/ContactForm.tsx:83-87 | "hi" followed by eight spaces gets no message error although it trims to two characters |
| `Contact.FiveAstralCharactersAccepted` | src/components/ContactForm.tsx:83-87 | a message of five emoji, each above the Basic Multilingual Plane, has `length` 10 and gets no message error |
| `Contact.MissingTakesPrecedence` | src/components/ContactForm.tsx:62-87 | a blank value gets its own field's "missing" error, whatever the format or length rule says |
| `Contact.ValidateEmptyIff` | src/components/ContactForm.tsx:89-90 | the record is empty exactly when the name is not blank, the phone and email match their patterns, and the message is not blank and at least 10 UTF-16 code units long |
| `Contact.ValidateFieldsIndependent` | src/components/ContactForm.tsx:61-87 | changing one field's value leaves every other field's entry in the record as it was |
| `Contact.ContactForm.constructor` | src/components/ContactForm.tsx:26-38 | the form starts with four empty fields, no errors, no send in progress and no banner |
| `Contact.ContactForm.HandleChange` | src/components/ContactForm.tsx:41-55 | the named field takes the new value and the others keep theirs; that field's error is removed and the other errors stay; the invariant is kept |
| `Contact.ContactForm.ValidateForm` | src/components/ContactForm.tsx:58-91 | the error record is replaced by the one the current values call for, the result is true exactly when that record is empty, nothing else changes, and the invariant is kept |
| `Contact.ContactForm.HandleSubmit` | src/components/ContactForm.tsx:94-120 | on an invalid form only the errors change; on a valid form all four fields end up empty, the success flag is set and no send is in progress |
| `Contact.ContactForm.SuccessTimeoutElapsed` | src/components/ContactForm.tsx:111-113 | the success banner is cleared and nothing else changes |
| `Gallery.FilterBy` | src/components/PortfolioGallery.tsx:92 | `items.filter(item => item.category === c)`; the result is never longer than the list (its meaning is stated by the lemmas below) |
| `Gallery.CategoriesCover` | src/components/PortfolioGallery.tsx:84 | the filter buttons offer every category, each exactly once |
| `Gallery.FilterMembership` | src/components/PortfolioGallery.tsx:92 | every item the category filter returns has that category, every item of that category is returned, and the result is no longer than the list |
| `Gallery.FilterIsSubsequence` | src/components/PortfolioGallery.tsx:92 | the filter result is a subsequence of the list, so the original order is kept |
| `Gallery.FilterCounts` | src/components/PortfolioGallery.tsx:92 | every copy of an item of the chosen category is kept, and no copy of any other item |
| `Gallery.FilterIdempotent` | src/components/PortfolioGallery.tsx:92 | filtering a filtered list by the same category changes nothing |
| `Gallery.FilterConcat` | src/components/PortfolioGallery.tsx:92 | filtering a concatenation is the concatenation of the filtered parts |
| `Gallery.Filtered` | src/components/PortfolioGallery.tsx:87-94 | choosing 'all' shows the full list in its order; any other choice shows exactly the items of that category |
| `Gallery.StaticIds` | src/components/PortfolioGallery.tsx:27-76 | the static items have ids 1 to 8 in order, and none is tagged 'all' |
| `Gallery.StaticFacilities` | src/components/PortfolioGallery.tsx:27-76 | the facilities filter shows pictures 1, 4 and 7, in that order |
| `Gallery.StaticEquipment` | src/components/PortfolioGallery.tsx:27-76 | the equipment filter shows pictures 2, 5 and 8, in that order |
| `Gallery.StaticClasses` | src/components/PortfolioGallery.tsx:27-76 | the classes filter shows pictures 3 and 6, in that order |
| `Gallery.CategoriesPartition` | src/components/PortfolioGallery.tsx:27-92 | every picture appears under 'all' and under exactly one of the three category filters, namely its own |
| `Gallery.PartitionSizes` | src/components/PortfolioGallery.tsx:27-92 | the three category filters together show as many pictures as the list holds (3 + 3 + 2 = 8) |
| `Gallery.Grid` | src/components/PortfolioGallery.tsx:143-154 | while loading, the grid is exactly 8 placeholders whatever the filter; afterwards it is the filtered pictures in their order |
| `Gallery.PortfolioGallery.constructor` | src/components/PortfolioGallery.tsx:79-81 | the gallery starts with the full list shown, the 'all' filter active and loading on |
| `Gallery.PortfolioGallery.HandleFilterChange` | src/components/PortfolioGallery.tsx:87-94 | the chosen category becomes the active filter, and the list shown is what it selects from the static list, whatever was shown before |
| `Gallery.PortfolioGallery.LoadingFinished` | src/components/PortfolioGallery.tsx:96-103 | loading ends, the filter state is untouched and the invariant is kept |
| `Gallery.PortfolioGallery.Displayed` | src/components/PortfolioGallery.tsx:143-154 | the screen shows the 8 placeholders while loading and afterwards one photo per picture the active filter selects from the static list, in order |
| `Gallery.FilterTwice` | src/components/PortfolioGallery.tsx:87-94 | after two filter changes the state is what the second change alone gives, so the earlier choice leaves no trace and repeating a choice changes nothing |

## Left out

- Rendering: the JSX markup, Tailwind classes, inline styles, the category
  badge and the Hebrew button labels have no behaviour to state.
- Time: the 1500 ms simulated send, the 5000 ms success-banner timer and the
  1000 ms gallery loading timer are not modelled as time. The banner expiry
  and the end of loading are explicit events (`SuccessTimeoutElapsed`,
  `LoadingFinished`).
- `Contact.ContactForm.HandleSubmit`: the `await` is collapsed into one step.
  The moment during the send when `isSubmitting` is true and the button is
  disabled is not observable in the model. Edits typed during the send, which
  the source would then wipe, are not modelled.
- The `catch` branch of `handleSubmit`: nothing in its `try` block can fail,
  and no network call exists. `submitSuccess` is therefore never `false`.
- `preventDefault` and the DOM event objects: `HandleChange` takes the field
  and the new value directly, and only the four named inputs exist.
- Clearing an error: the source sets the key to `undefined`, and the model
  removes the key. Every read of the record is a truthiness test, and
  `validateForm` never reads the old record, so nothing observable differs.
- Characters: Dafny's `char` is a Unicode scalar value, while JavaScript
  strings are UTF-16 code units. The message length is counted in code
  units (`Utf16Length`). The other rules give the same answer on code units
  as on characters: no whitespace character, '@', '.' or digit lies above
  the Basic Multilingual Plane. Strings holding lone surrogates are not
  modelled.
- The static picture list `GalleryItems` is a constant, not an operation.
  Its contents are stated by `StaticIds`, `StaticFacilities`,
  `StaticEquipment` and `StaticClasses`.
- The other sections of the page (hero, about, services, call to action,
  location map, footer) and the page and layout files contain only
  presentation, a third-party map and external links.
