# Portfolio site: contact form and header navigation

A Dafny model of the two interactive controllers of a single-page React
portfolio site. Everything else on the page is markup, animation and fixed
content.

- **Contact form** (`src/sections/Contact.jsx`). The state is `formData`
  (name, email, message), an `errors` map, and the flags `isSubmitting` and
  `submitSuccess`. The model covers:
  - the validator, with its three rules, its four fixed messages and the
    e-mail pattern `^[^\s@]+@[^\s@]+\.[^\s@]+$`;
  - the field-edit handler, which writes one field and nulls that field's
    error;
  - the submit handler: validate, then submitting, then success with the
    fields cleared;
  - the "Send Another Message" button.
- **Header** (`src/components/layout/Header.jsx`). The state is `isOpen`,
  `scrolled` and `activeSection`. The model covers:
  - the scroll handler: the 50 px threshold and a first-match search over
    the five section identifiers against the 100 px reference line;
  - the navigation-link click;
  - the mobile-menu toggle.

Modules:

- `Text` (text.dfy): JavaScript white space (the WhiteSpace and
  LineTerminator code points, which both `trim()` and `\s` use), `trim()`,
  and the "blank" test `!s.trim()`.
- `EmailPattern` (email_pattern.dfy): the pattern as the regular expression
  reads it (`Matches`: a split `L @ D1 . D2` into three non-empty runs of
  `[^\s@]`). A separate shape check (`WellShaped`): no white space, exactly
  one `@`, something before it, and an inner `.` after it. A proof that the
  two agree on every string.
- `Contact` (contact.dfy): the fields, the per-field rules, the error map
  that validation installs (`ExpectedErrors`), and class `ContactForm` with
  the handlers.
- `Header` (header.dfy): the section list, the navigation links, the
  first-straddling search `FirstHit`, and class `NavHeader` with the handlers.
- `Wrappers` (wrappers.dfy): `Option`, which stands for JavaScript's `null`.

The browser is given as plain inputs. The scroll offset is an integer. The
page is a map from each section identifier that `document.getElementById`
resolves to that element's box (`top`, `bottom`), in whole pixels.

Notes on the code's behaviour:

- The scroll handler's section list has five identifiers, including `skills`.
- The email-required check trims the value, but the pattern is tested on the
  untrimmed value.
- "Send another" clears only `submitSuccess`. The form is empty and error-free
  at that point only because the earlier successful submission left it so.
  `SubmitThenSendAnother` proves this.

As the page is composed in `src/App.jsx`, no element has the id `home` or
`skills`. So the scroll handler can never select either of them, and they
become active only through a navigation click. The model keeps the page as
an input, so this is a property of the inputs, not of the handler.

## Model

| member | source | states |
|---|---|---|
| `Text.TrimStart` | src/sections/Contact.jsx:33 | The result is the suffix of the input left after its leading white space; everything dropped is white space, and the result is empty or starts with a non-space. |
| `Text.TrimEnd` | src/sections/Contact.jsx:33 | The result is the prefix before the trailing white space; everything dropped is white space, and the result is empty or ends with a non-space. |
| `Text.Trim` | src/sections/Contact.jsx:33 | `trim()` is empty exactly when the string is all white space; otherwise it neither starts nor ends with white space. |
| `Text.BlankIsEmptyTrim` | src/sections/Contact.jsx:34 | A field counts as missing (`!value.trim()`) exactly when it is blank. |
| `EmailPattern.IndexOf` | src/sections/Contact.jsx:36 | The result is the position of the first occurrence of the character, or the length when there is none; no earlier position holds it. |
| `EmailPattern.CountOfAround` | src/sections/Contact.jsx:36 | The occurrences of a character in a string are those before a position, plus the one at it (if any), plus those after it. |
| `EmailPattern.PatternIsShape` | src/sections/Contact.jsx:36 | The pattern accepts a string iff the string has no white space and exactly one `@` with a non-empty part before it, and the part after it has a `.` with a character on each side. |
| `EmailPattern.Matches` | src/sections/Contact.jsx:36 | The regular expression itself: a split into a non-empty `[^\s@]` run, `@`, a non-empty run, `.`, a non-empty run. Its contract: an accepted string has at least five characters and neither starts nor ends with `@`. |
| `EmailPattern.MatchImpliesShape` | src/sections/Contact.jsx:36 | Every string the pattern accepts has that shape, and the `@` of the split is the first one. |
| `EmailPattern.ShapeImpliesMatch` | src/sections/Contact.jsx:36 | Every string of that shape is accepted by the pattern. |
| `EmailPattern.AcceptsSimpleAddress` | src/sections/Contact.jsx:36 | "a@b.com" is accepted. |
| `EmailPattern.RejectsBareWord` | src/sections/Contact.jsx:36 | "not-an-email" is rejected. |
| `EmailPattern.MatchHasNoSpace` | src/sections/Contact.jsx:36 | An accepted address contains no white space, so none at either end. |
| `Contact.Form.With` | src/sections/Contact.jsx:18-21 | Writing a field sets that field to the value and leaves the other two unchanged. |
| `Contact.HasError` | src/sections/Contact.jsx:23 | The truthiness of `errors[name]` (absent, null and "" are false); on a map whose entries are null or fixed messages it holds exactly when the entry holds a message. |
| `Contact.Rule` | src/sections/Contact.jsx:33-39 | One field's rule (for the email: blank first, then the pattern on the untrimmed value); its outcome is always null or one of that field's fixed messages. |
| `Contact.ExpectedErrors` | src/sections/Contact.jsx:32-41 | The `newErrors` map rebuilt on each validation, one entry per failing field; every entry holds a message (never null) and that message belongs to its field. |
| `Contact.Acceptable` | src/sections/Contact.jsx:42 | What the validator's `return` decides; an acceptable form has a non-empty name and message and an email of at least five characters. |
| `Contact.NoErrorsIffAcceptable` | src/sections/Contact.jsx:31-43 | Validation leaves an empty error map (no keys) iff the name is non-blank, the email is non-blank and matches the pattern, and the message is non-blank. |
| `Contact.ExpectedErrorsAt` | src/sections/Contact.jsx:32-41 | A field has an entry in the installed map iff its rule fails, and the entry is that rule's message. |
| `Contact.ExpectedErrorsEntries` | src/sections/Contact.jsx:32-41 | The map is rebuilt, not merged: `name` is present iff the name is blank, `email` iff the email is blank or fails the pattern, and `message` iff the message is blank. |
| `Contact.ExpectedErrorsWellFormed` | src/sections/Contact.jsx:33-39 | An installed name entry is "Name is required" and an installed message entry is "Message is required". |
| `Contact.EmailErrorsExclusive` | src/sections/Contact.jsx:34-38 | A blank email gets exactly "Email is required" and never "Please enter a valid email". A non-blank email that fails the pattern gets the latter. |
| `Contact.PaddedEmailInvalid` | src/sections/Contact.jsx:34-38 | A non-blank email with white space at its start or end gets "Please enter a valid email", because the pattern sees the untrimmed value. |
| `Contact.EmailExamples` | src/sections/Contact.jsx:34-38 | Email "not-an-email" yields "Please enter a valid email"; email "a@b.com" yields no email entry. |
| `Contact.ContactForm.constructor` | src/sections/Contact.jsx:7-14 | Initial state: all fields "", no errors, not submitting, not succeeded. |
| `Contact.ContactForm.HandleChange` | src/sections/Contact.jsx:16-29 | Only the edited field's value changes. If that field showed an error, its entry becomes null, so it no longer shows one. Other fields' values and entries are unchanged. |
| `Contact.ContactForm.ValidateForm` | src/sections/Contact.jsx:31-43 | The error map is replaced by the rule-by-rule map for the current fields. The result is true iff the form is acceptable. Field values and flags are untouched. |
| `Contact.ContactForm.HandleSubmit` | src/sections/Contact.jsx:45-60 | The errors always become the validation map. On a failed validation, the fields and both flags are unchanged. On a passed validation that is delivered, the result is `submitSuccess`, all three fields "", and `isSubmitting` false. |
| `Contact.ContactForm.SendAnother` | src/sections/Contact.jsx:205 | Sets `submitSuccess` to false and changes nothing else. |
| `Contact.SubmitThenSendAnother` | src/sections/Contact.jsx:45-60 | From an acceptable form, submit (delivered) then "send another" gives an empty form, an empty error map, and both flags false. |
| `Header.Targets` | src/components/layout/Header.jsx:40-46 | The targets of a link list are its links' sections, position by position. |
| `Header.NavTargetsAreSections` | src/components/layout/Header.jsx:40-46 | The five navigation links target exactly the scroll handler's section list, in the same order. |
| `Header.IsScrolled` | src/components/layout/Header.jsx:14 | The header's elevated flag: the vertical offset exceeds 50 pixels. |
| `Header.Straddles` | src/components/layout/Header.jsx:22 | A box straddles the reference line when its top is at or above 100 and its bottom at or below it; such a box has non-negative height. |
| `Header.FirstHit` | src/components/layout/Header.jsx:17-26 | A found position holds a present section whose box straddles the 100 px line, and no earlier section does. Nothing is found iff no section in the list is present and straddling. |
| `Header.ActiveAfterScroll` | src/components/layout/Header.jsx:18-27 | After a scroll event the active section is one of the five identifiers or the previous value. If some section straddles, the result is the first straddling section in list order; if none does, it is the previous value. |
| `Header.AboutBecomesActive` | src/components/layout/Header.jsx:17-26 | If "about" straddles the line and "home" does not, "about" becomes active whatever was active before. |
| `Header.NoHitKeepsActive` | src/components/layout/Header.jsx:18-27 | If none of the five sections is present and straddling, the active section keeps its previous value. |
| `Header.NavHeader.constructor` | src/components/layout/Header.jsx:7-9 | Initial state: menu closed, not scrolled, active section "home". |
| `Header.NavHeader.HandleScroll` | src/components/layout/Header.jsx:13-27 | `scrolled` becomes `scrollY > 50`. The active section becomes the first present, straddling section in the order home, about, projects, skills, contact, or stays as it was if there is none. `isOpen` is unchanged, and the active section stays one of the five. |
| `Header.NavHeader.HandleNavClick` | src/components/layout/Header.jsx:35-38 | The menu is closed and the clicked section becomes active. `scrolled` is unchanged. |
| `Header.NavHeader.ToggleMenu` | src/components/layout/Header.jsx:116 | `isOpen` flips; `scrolled` and the active section are unchanged. |

## Left out

- The browser's handling of the `type="email"` input is not modelled. The browser removes newlines and leading and trailing ASCII white space from the value before `handleChange` reads it. The form has no `noValidate`, so the browser's own validation blocks submission of a non-empty value that is not a valid HTML address, and `handleSubmit` never runs for it. The handlers are modelled as if called on any string. So `Contact.PaddedEmailInvalid` and the "not-an-email" case of `Contact.EmailExamples` describe the validator as written, not what the page shows; on the page, "Please enter a valid email" appears only for addresses HTML accepts and the pattern rejects, such as "a@b".
- Contact.ContactForm.HandleSubmit: the 1500 ms `setTimeout` wait is not modelled. The handler is one atomic step, and the submission's outcome is the parameter `delivered`. The code's stub always resolves, so its `catch` (which only logs) is unreachable; with `delivered` false the model takes that path, and only `isSubmitting` is reset.
- Contact.ContactForm.HandleSubmit: the `isSubmitting` state that is visible during the wait, and the disabled submit button that depends on it, are not observable in an atomic step. Between events `isSubmitting` is always false.
- Contact.ContactForm.HandleChange: reads the current `errors`. React's batching and the stale render-closure value of `errors` are not modelled.
- Header.NavHeader.HandleNavClick: requires its argument to be a navigation-link target. Every call site passes `link.section` or `'home'`.
- Header.NavHeader.HandleScroll: takes the scroll offset and the boxes as integers. Fractional pixel values from the browser are not modelled.
- Registering and removing the `window` scroll listener (`useEffect`) is not modelled. Each scroll event is one call of `HandleScroll`.
- `document.getElementById` and `getBoundingClientRect` are not modelled; the `Page` map takes their place.
- Strings are sequences of Unicode code points, while JavaScript strings are UTF-16 code units. All white-space characters lie in the Basic Multilingual Plane, and `[^\s@]` accepts both halves of a surrogate pair. So the pattern's verdict is the same either way.
- Rendering is not modelled: JSX markup, CSS classes and framer-motion animation. This includes which panel shows (the form, or the success message when `submitSuccess` is set), the red borders on fields with errors, and the highlight on the active link.
- The fixed content lists are not modelled: `contactMethods`, `socialLinks`, the header's social links, and the About, Footer and Hero content.
- The Projects filter is not modelled. It stores a string and starts an animation, but the grid always shows every project.
