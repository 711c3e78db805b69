# AquaFit forms: a Dafny model

This project models the form logic of two pages of the AquaFit front end.

- **Registration page** (`src/pages/Register.tsx`). It has a four-field form: full name, e-mail, password and confirmation. The validator turns the form into a map from field to error message. Editing a field clears that field's error. The submit handler validates, raises `isLoading`, posts `{username, email, password}` to `/api/auth/register`, shows a toast for the answer, and lowers `isLoading` on every path.
- **Dashboard** (`src/pages/Dashboard.tsx`). It has an eight-field health profile. A field edit changes only that field. Saving the profile checks that the seven required fields are filled in; the health condition is optional. An image-analysis switch goes idle → analyzing only when an image is selected, and back to idle when the loading screen finishes.

Files:

- `wrappers.dfy`: `Option`, which stands for JavaScript's `null`/`undefined`.
- `js_strings.dfy` (module `JsStrings`): the JavaScript string built-ins the validator uses. `IsWhiteSpace` is the ECMAScript WhiteSpace and LineTerminator set; `trim` strips it and the regular-expression class `\s` matches it. `Trim` models `trim`. `JsLength` models `length`, which counts UTF-16 code units, so a character above U+FFFF counts 2.
- `register.dfy` (module `Register`): the registration form, the e-mail pattern, the validator as a spec function (`FormErrors`) with one lemma per rule, the toast decision, and the class `RegisterPage`. The class holds `formData`, `errors` and `isLoading`, and its methods model `validateForm`, `handleChange` and `handleSubmit`.
- `dashboard.dfy` (module `Dashboard`): the profile form, the missing-field filter with its order and uniqueness lemmas, and the class `DashboardPage`. The class holds `formData`, `selectedFile` and `isAnalyzing`; its invariant is "analyzing only with a file selected".

How the model is set up:

- The e-mail rule is `/\S+@\S+\.\S+/.test(email)`, which is not anchored. `EmailRegexTest` is what the regular expression means: some substring splits into a non-whitespace run, `@`, a run, `.`, and a run. The runs may contain `@` and `.`. `HasEmailShape` is the test the model runs: a shortest match (one non-whitespace character, `@`, at least one non-whitespace character, `.`, one non-whitespace character). `EmailShapeIsRegexTest` proves that the two agree.
- `handleSubmit` awaits the network. The model splits it at the `await`. `SubmitStart` validates, raises `isLoading` and builds the request. `SubmitSettle(outcome)` takes what the `fetch` promise settled with and runs the rest, through `finally`. `HandleSubmit` composes the two.
- The network answer is a parameter of type `FetchOutcome`. It is either a rejection (an `Error` with its message, or another thrown value) or a response. A response has its `ok` flag and a body that is either not JSON or an object with an optional `message`.

## Model

| member | source | states |
|---|---|---|
| `JsStrings.LeadingWhiteSpace` | src/pages/Register.tsx:27 | the length of the longest whitespace prefix: every character before it is whitespace and the one at it is not |
| `JsStrings.TrailingWhiteSpace` | src/pages/Register.tsx:27 | the length of the longest whitespace suffix, with the same two conditions mirrored |
| `JsStrings.Trim` | src/pages/Register.tsx:27 | `trim()`: the result is no longer than its input and is empty or starts and ends with a non-whitespace character |
| `JsStrings.TrimCutsWhiteSpaceOnly` | src/pages/Register.tsx:31 | `trim()` takes a whitespace prefix and a whitespace suffix off its input and keeps the middle unchanged |
| `JsStrings.TrimEmptyIffAllWhiteSpace` | src/pages/Register.tsx:27-31 | `!s.trim()` holds exactly when every character of `s` is whitespace |
| `JsStrings.IsWhiteSpace` | src/pages/Register.tsx:27-33 | defines the ECMAScript WhiteSpace and LineTerminator code points, the set `trim()` strips and `\s` matches (a definition, no contract) |
| `JsStrings.JsLength` | src/pages/Register.tsx:39 | `length` counts UTF-16 code units: between the number of characters and twice that, exactly the number of characters when none is above U+FFFF, and 0 only for "" |
| `Register.RegisterForm.With` | src/pages/Register.tsx:51-52 | `{...prev, [field]: value}` sets the named field to the value and leaves the other three unchanged |
| `Register.EmailRegexTest` | src/pages/Register.tsx:33 | defines what `/\S+@\S+\.\S+/.test(s)` answers: some substring splits into a whitespace-free run, `@`, a run, `.`, a run; an accepted string has at least 5 characters |
| `Register.HasEmailShape` | src/pages/Register.tsx:33 | the test the validator runs: some window of a non-whitespace character, `@`, a whitespace-free run, `.`, and a non-whitespace character exists; an accepted string has at least 5 characters and contains `@` and `.` |
| `Register.ShortestMatch` | src/pages/Register.tsx:33 | a shortest window (character, `@`, run, `.`, character) is a match of `\S+@\S+\.\S+` |
| `Register.EmailShapeIsRegexTest` | src/pages/Register.tsx:33 | the shortest-window test holds exactly when some substring matches `\S+@\S+\.\S+` (both directions) |
| `Register.EmailRegexTestNotBlank` | src/pages/Register.tsx:31-33 | a string the pattern accepts is never blank, so the two e-mail checks cannot both apply |
| `Register.EmailPatternUnanchored` | src/pages/Register.tsx:33 | the unanchored pattern accepts an address with a space before it and one with two `@`; it rejects `a@.b` and `@mail.com` |
| `Register.FieldError` | src/pages/Register.tsx:27-45 | the error the validator attaches to one field, by that field's rule; a message it gives is always one of that field's messages |
| `Register.FormErrors` | src/pages/Register.tsx:25-46 | the `newErrors` map: one entry per field whose rule fails, each message one of that field's messages |
| `Register.FormErrorsMessages` | src/pages/Register.tsx:25-46 | a field is a key of the error map exactly when its rule fails, and its message is one of that field's messages |
| `Register.FormErrorsInOrder` | src/pages/Register.tsx:25-46 | checking the four fields one after another, as the validator does, builds exactly the error map |
| `Register.FullNameErrorIff` | src/pages/Register.tsx:27-29 | the full-name error is present exactly when the name is empty or all whitespace, with the message "Nome completo é obrigatório" |
| `Register.EmailErrorCases` | src/pages/Register.tsx:31-35 | a blank e-mail gets "Email é obrigatório"; a non-blank one the pattern rejects gets "Email inválido"; there is no e-mail error exactly when the pattern accepts it |
| `Register.PasswordErrorCases` | src/pages/Register.tsx:37-41 | an empty password gets "Senha é obrigatória"; length 1 to 5 gets the minimum-length message; no password error exactly when the length is at least 6 |
| `Register.ConfirmErrorIff` | src/pages/Register.tsx:43-45 | the confirmation error is present exactly when the passwords differ, whatever the password's own validity |
| `Register.ErrorDependsOnlyOnReads` | src/pages/Register.tsx:27-45 | editing a field outside `ReadsOf(g)` leaves the error of field `g` unchanged; `ReadsOf` lists each rule's own field, and for the confirmation rule also the password |
| `Register.Acceptable` | src/pages/Register.tsx:27-45 | a form every rule accepts: a non-blank name, an e-mail the pattern accepts, a password of at least 6 code units equal to its confirmation; on such a form none of the "required" guards (`!fullName.trim()`, `!email.trim()`, `!password`) fires |
| `Register.FormValidIff` | src/pages/Register.tsx:24-48 | the error map is empty exactly when the name has a non-whitespace character, the e-mail matches the pattern, the password has at least 6 code units and equals the confirmation |
| `Register.ServerMessage` | src/pages/Register.tsx:76-84 | `data.message` with the `{}` default: "" unless the body is JSON with a `message`, and then that message |
| `Register.SettleToast` | src/pages/Register.tsx:76-101 | success exactly for an `ok` response; a refused response shows the server's non-empty `message` or else "Erro ao registrar"; a rejection shows the error's message or "Algo deu errado." |
| `Register.RefusalDescribed` | src/pages/Register.tsx:83-84 | a refused response always has a non-empty description, and it is the server's message exactly when the server sent a non-empty one |
| `Register.RegisterPage.Valid` | src/pages/Register.tsx:24-56 | the page invariant: every entry of `errors` is "" (cleared by `handleChange`) or a message the validator gives for that field (a definition, kept by every method) |
| `Register.RegisterPage.ShowsError` | src/pages/Register.tsx:53 | the truthiness test `errors[field]`, also used as `errors.f &&` in the markup (src/pages/Register.tsx:138-180): a field shows an error exactly when it has an entry that is not "" (a definition, no contract; `HandleChange` ensures the edited field no longer shows one) |
| `Register.RegisterPage.constructor` | src/pages/Register.tsx:13-20 | the page starts with an empty form, no errors and `isLoading` false |
| `Register.RegisterPage.ValidateForm` | src/pages/Register.tsx:24-49 | stores the error map of the current form, returns true exactly when it is empty, keeps the invariant that every displayed message belongs to its field, changes nothing else |
| `Register.RegisterPage.HandleChange` | src/pages/Register.tsx:51-56 | sets only the named field; an error shown under that field becomes "", all other entries are unchanged; afterwards the field shows no error |
| `Register.RegisterPage.SubmitStart` | src/pages/Register.tsx:58-74 | an unacceptable form gives no request and leaves `isLoading` unchanged; an acceptable one raises `isLoading` and yields `{username: fullName, email, password}` |
| `Register.RegisterPage.SubmitSettle` | src/pages/Register.tsx:76-104 | `isLoading` ends false whatever the outcome, the toast is `SettleToast(outcome)`, form and errors are unchanged |
| `Register.RegisterPage.HandleSubmit` | src/pages/Register.tsx:58-105 | no request exactly when the form is unacceptable, and then `isLoading` is unchanged; otherwise the request carries the form's values, `isLoading` ends false and the toast follows the outcome |
| `Dashboard.ProfileForm.With` | src/pages/Dashboard.tsx:29-31 | sets the named field of the eight and leaves the other seven unchanged |
| `Dashboard.IsMissing` | src/pages/Dashboard.tsx:69 | `!formData[field]`: only the empty string is falsy, so a value of spaces is filled in (a definition, no contract) |
| `Dashboard.FilterMissing` | src/pages/Dashboard.tsx:69 | `filter(field => !formData[field])` keeps exactly the fields of the list whose value is "" and is no longer than the list |
| `Dashboard.FilterMissingInOrder` | src/pages/Dashboard.tsx:69 | filtering a list in profile order gives a list in profile order |
| `Dashboard.MissingFields` | src/pages/Dashboard.tsx:68-69 | `missingFields`: the filter applied to the seven required fields; no longer than that list, and every entry is a required field that is empty |
| `Dashboard.MissingFieldsSpec` | src/pages/Dashboard.tsx:68-69 | the missing list holds exactly the fields other than the health condition whose value is "", in the required list's order; the health condition is never in it |
| `Dashboard.InOrderUnique` | src/pages/Dashboard.tsx:68-69 | two lists in profile order with the same members are equal |
| `Dashboard.MissingFieldsUnique` | src/pages/Dashboard.tsx:68-69 | any ordered list of exactly the empty required fields is the missing list |
| `Dashboard.FirstFile` | src/pages/Dashboard.tsx:34 | `files?.[0]` is a file exactly when the input has a non-empty list, and then it is the first one |
| `Dashboard.DashboardPage.Valid` | src/pages/Dashboard.tsx:45-59 | the page invariant: `isAnalyzing` only with a file selected (a definition, kept by every method) |
| `Dashboard.DashboardPage.AnalyzeEnabled` | src/pages/Dashboard.tsx:284 | `disabled={!selectedFile}` inverted: the analyse button is enabled exactly when a file is selected (a definition, no contract; `HandleImageAnalysis` starts analysis exactly when it holds) |
| `Dashboard.DashboardPage.constructor` | src/pages/Dashboard.tsx:14-26 | the page starts with an empty profile, no file and not analyzing |
| `Dashboard.DashboardPage.HandleInputChange` | src/pages/Dashboard.tsx:29-31 | only the named profile field changes; the file and the analysis flag are unchanged |
| `Dashboard.DashboardPage.HandleFileChange` | src/pages/Dashboard.tsx:33-36 | a chosen file becomes the selection; choosing nothing keeps the previous selection; a selection is never dropped |
| `Dashboard.DashboardPage.HandleImageAnalysis` | src/pages/Dashboard.tsx:45-56 | with no file, `isAnalyzing` is unchanged and the "no image" toast is shown; with a file, `isAnalyzing` becomes true; it starts exactly when the analyse button is enabled (`disabled={!selectedFile}`); analysis never runs without a file |
| `Dashboard.DashboardPage.HandleAnalysisComplete` | src/pages/Dashboard.tsx:58-64 | `isAnalyzing` becomes false, the completion toast is shown, and nothing else changes |
| `Dashboard.DashboardPage.HandleSubmitProfile` | src/pages/Dashboard.tsx:66-84 | the missing list is exactly the empty required fields in order; the profile is saved exactly when it is empty; nothing changes |

## Left out

- `fetch`, `response.json()`, `toast`, `setTimeout` navigation and `console.warn` (src/pages/Register.tsx:66-101): these are network, timers and side effects. The model takes the settled outcome as a parameter and returns the toast; a success is one value, `Registered`, which stands for the success toast and the navigation to `/login` one second later.
- Response bodies whose JSON is `null` or whose `message` is not a string: the model's body is either not JSON or an object with an optional string `message`. On a refused response with a `null` body, `data.message` throws, and that error's text would become the toast. An `ok` response never reads `data.message`, so its body does not matter.
- `handleChange` and `handleInputChange` with a field name outside their forms (src/pages/Register.tsx:51, src/pages/Dashboard.tsx:29): both take `field: string`, but the markup only passes the four registration names (src/pages/Register.tsx:134-176) and the eight profile names (src/pages/Dashboard.tsx:118-211). So `field` is the `Field` or `ProfileField` enumeration.
- `JsLength`: Dafny's `char` cannot hold a lone surrogate, which a JavaScript string may contain and which `length` counts as 1. Such passwords are outside the model.
- React's asynchronous state updates: each handler runs to completion and its `setState` calls take effect at once. In particular, a second submit while one is in flight is not modelled as overlapping; the button is disabled while `isLoading` (src/pages/Register.tsx:186).
- `imagePreview` and the `FileReader` preview (src/pages/Dashboard.tsx:37-41): these are an asynchronous browser API. `ImageFile` keeps only the file name, which is all the page shows.
- The switch to the loading screen while `isAnalyzing` (src/pages/Dashboard.tsx:86-88): the model lets every handler run in every state, which is more permissive than the page.
- `src/components/LoadingScreen.tsx` (timers, random increments, rounding), `src/pages/Login.tsx` (a simulated login), `src/pages/Index.tsx` and `src/components/Layout.tsx` (markup only), and all rendering, styling and routing.
