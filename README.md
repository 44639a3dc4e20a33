# A verified model of the agency site's interactive logic

The site is a React single-page site for a creative agency. Almost all of
it is presentation. This project models the handful of components that
hold logic, with one Dafny module for each:

- **Contact** (`Contact.dfy`):
  - the contact form's three controlled fields;
  - the synchronous validator, which maps the fields to per-field error
    messages, including the email pattern `^[^\s@]+@[^\s@]+\.[^\s@]+$`;
  - the form's state machine over `formData`, `errors`, `isSubmitting`
    and `isSuccess`, driven by the submit and change handlers.
- **Portfolio** (`Portfolio.dfy`): six fixed portfolio entries, four
  filter buttons, and the list shown for the active filter tag (`all` is
  a wildcard).
- **Projects** (`Projects.dfy`):
  - six fixed project cards and four category buttons;
  - the list shown for the selected category;
  - the capitalised button caption.
- **CategoryFilter** (`CategoryFilter.dfy`): the `Array.prototype.filter`
  both sections use. It is a generic, order-preserving filter, proved:
  - sound and complete;
  - equal to the selection of the accepted positions, in order, and the
    only such selection.
- **Testimonials** (`Testimonials.dfy`):
  - the carousel as a class with `currentIndex` and `direction`, and its
    next, previous and dot-click transitions;
  - the preserved bounds invariant;
  - the wrap-around arithmetic;
  - the ±1000 slide offsets chosen by the direction.
- **ThemeContext** (`ThemeContext.dfy`):
  - the two colour-token maps;
  - the dark-mode flag, read from an optional stored string, flipped by
    `toggleTheme` and written back as `dark` or `light`;
  - the theme selection and the `useTheme` guard.
- **Wrappers** (`Wrappers.dfy`): `Option` and `Result`.

Storage is an abstract `Option<string>` cell. Timers and async waits
become separate atomic steps: the submit completion and the success
timeout are methods of their own, and a timer tick of the carousel is a
call to `Next`.

The email pattern is modelled twice:
- `MatchesEmailPattern` is its meaning: some split into three non-empty
  `[^\s@]` runs around an `@` and a `.`.
- `IsValidEmail` splits at the first `@`.

`IsValidEmailMatchesPattern` proves the two agree. The validator states
its contract with the first and computes its result with the second.

## Model

| member | source | states |
|---|---|---|
| Contact.TrimStart | src/components/Contact.jsx:263 | the result is a suffix of the input, everything cut off is whitespace, and a non-empty result does not start with whitespace |
| Contact.TrimEnd | src/components/Contact.jsx:263 | the result is a prefix of the input, everything cut off is whitespace, and a non-empty result does not end with whitespace |
| Contact.Trim | src/components/Contact.jsx:263 | `trim` never lengthens, and a non-empty result neither starts nor ends with whitespace |
| Contact.TrimEmptyIffBlank | src/components/Contact.jsx:263 | `!s.trim()` holds exactly when every character of `s` is whitespace |
| Contact.TrimIsSlice | src/components/Contact.jsx:266 | the trimmed string is a contiguous slice of the original with only whitespace on either side |
| Contact.IndexOf | src/components/Contact.jsx:268 | the result is the position of the first occurrence, or the length when there is none |
| Contact.IsValidEmailMatchesPattern | src/components/Contact.jsx:268 | `IsValidEmail`, the computed email test, accepts exactly the strings the regular expression matches |
| Contact.ValidEmailHasSplit | src/components/Contact.jsx:268 | a string the first-`@` test accepts has a split into three segments around `@` and `.` |
| Contact.SplitIsValidEmail | src/components/Contact.jsx:268 | any split of the pattern is found by the first-`@` test |
| Contact.AcceptedEmailShape | src/components/Contact.jsx:268 | an accepted email has no whitespace and exactly one `@`, with a non-empty part before it, then a non-empty segment, a `.` and a non-empty tail without `@` |
| Contact.FormData.Set | src/components/Contact.jsx:295-298 | the spread update sets the named field and leaves the other two unchanged |
| Contact.ValidateForm | src/components/Contact.jsx:261-275 | for each field, the fixed message is present exactly when the field fails its check; email is "required" when blank and "invalid" when not blank but unmatched, never both |
| Contact.CollectErrors | src/components/Contact.jsx:262-274 | the error map built by the three conditional assignments has a key exactly for each failed check, with the email precedence |
| Contact.ValidateFormEmptyIff | src/components/Contact.jsx:261-275 | no errors exactly when name and message are not blank and the email is not blank and matches the pattern |
| Contact.ValidateFormTwoErrors | src/components/Contact.jsx:261-275 | an empty name with a malformed email gives exactly the name-required and invalid-email errors |
| Contact.ValidateFormAccepts | src/components/Contact.jsx:261-275 | a well-formed form gives an empty error map |
| Contact.ContactForm.constructor | src/components/Contact.jsx:252-259 | three empty fields, no errors, both flags false |
| Contact.ContactForm.HandleSubmit | src/components/Contact.jsx:277-283 | errors become the validator's verdict on the form; sending starts exactly when the verdict is empty; the frame lets it write only `errors` and `isSubmitting`, so the form data and success flag are unchanged |
| Contact.ContactForm.CompleteSend | src/components/Contact.jsx:286-288 | after the send, the three fields are empty, `isSubmitting` is false and `isSuccess` is true |
| Contact.ContactForm.SuccessTimeout | src/components/Contact.jsx:289 | the success flag is cleared and nothing else changes |
| Contact.ContactForm.HandleChange | src/components/Contact.jsx:293-306 | only the named field takes the new value; a truthy error for that field is blanked and any other error map is kept as it was |
| CategoryFilter.Filter | src/components/Portfolio.jsx:165-167 | the filtered list is no longer than the input, keeps only accepted elements, and keeps every accepted element |
| CategoryFilter.FilterSelectsPositions | src/components/Portfolio.jsx:165-167 | the filtered list is the elements at the accepted positions, in increasing order of position |
| CategoryFilter.SelectionIsFilter | src/components/Projects.jsx:178 | any in-order selection of exactly the accepted positions equals the filtered list |
| CategoryFilter.FilterKeepsAll | src/components/Portfolio.jsx:166 | a filter that accepts everything returns its input unchanged |
| CategoryFilter.FilterKeepsNone | src/components/Portfolio.jsx:166 | a filter that accepts nothing returns the empty list |
| CategoryFilter.FilterIdempotent | src/components/Portfolio.jsx:165-167 | filtering an already-filtered list by the same test changes nothing |
| CategoryFilter.FilterCons | src/components/Projects.jsx:178 | the filter of a list with a new head is that head (when accepted) before the filter of the tail |
| CategoryFilter.FilterAppend | src/components/Projects.jsx:178 | the filter of a concatenation is the concatenation of the filters |
| Portfolio.FilteredProjects | src/components/Portfolio.jsx:165-167 | `all` shows the whole list; any other tag shows only projects of that category and every one of them |
| Portfolio.FilteredProjectsInOrder | src/components/Portfolio.jsx:165-167 | the visible list is the order-preserving subsequence of the projects the filter shows |
| Portfolio.FilteredProjectsIdempotent | src/components/Portfolio.jsx:165-167 | filtering the visible list again by the same tag returns it unchanged |
| Portfolio.DesignFilter | src/components/Portfolio.jsx:127-143 | the `design` tag shows Corporate Identity Design and Social Media Graphics, in that order |
| Portfolio.UnknownTagShowsNothing | src/components/Portfolio.jsx:166 | a tag that no project carries shows nothing |
| Portfolio.FilterValuesCoverCategories | src/components/Portfolio.jsx:117-163 | the initial filter is a button's value, and every project's category is the value of a non-wildcard button |
| Projects.FilteredProjects | src/components/Projects.jsx:176-178 | `all` gives the project list itself; a category gives only and all the projects of that category |
| Projects.FilteredProjectsInOrder | src/components/Projects.jsx:178 | for a real category the visible list is the order-preserving selection of its projects |
| Projects.WebCategory | src/components/Projects.jsx:135-178 | `web` selects Digital Experience and E-Commerce Platform, in that order |
| Projects.MobileCategory | src/components/Projects.jsx:135-178 | `mobile` selects Mobile App and Social Media App, in that order |
| Projects.DesignCategory | src/components/Projects.jsx:135-178 | `design` selects Brand Identity and UI Kit Design, in that order |
| Projects.CategoriesCoverProjects | src/components/Projects.jsx:135-174 | every project's category is one of the three non-wildcard buttons |
| Projects.CategoriesPartitionProjects | src/components/Projects.jsx:135-178 | the three category selections hold six projects in all, and every project is in one of them |
| Projects.InitialCategoryHasButton | src/components/Projects.jsx:134-177 | the initial category is the first button, and its visible list is the project list itself |
| Projects.UpperCase | src/components/Projects.jsx:203 | lower-case ASCII letters map to their capitals, and every other character to itself |
| Projects.Caption | src/components/Projects.jsx:203 | the caption has the category's length, an upper-cased first character and the rest of the category unchanged |
| Projects.CaptionIdempotent | src/components/Projects.jsx:203 | capitalising a caption again changes nothing |
| Projects.CategoryCaptions | src/components/Projects.jsx:174-203 | the four buttons read All, Web, Mobile and Design |
| Testimonials.NextIndex | src/components/Testimonials.jsx:139-141 | the next index stays in range and equals `(i + 1) mod n` |
| Testimonials.PrevIndex | src/components/Testimonials.jsx:154-156 | the previous index stays in range and equals `(i - 1 + n) mod n` |
| Testimonials.NextPrevInverse | src/components/Testimonials.jsx:137-157 | previous after next, and next after previous, return to the same index |
| Testimonials.Advance | src/components/Testimonials.jsx:144-150 | every index reached by repeated timer ticks is in range |
| Testimonials.AdvanceWraps | src/components/Testimonials.jsx:137-142 | up to `n` forward steps add the step count and wrap at most once |
| Testimonials.FullCycle | src/components/Testimonials.jsx:137-142 | `n` forward steps return to the starting testimonial |
| Testimonials.DotDirection | src/components/Testimonials.jsx:230 | the direction is 1 exactly when the target dot is after the current one, and -1 otherwise |
| Testimonials.EnterX | src/components/Testimonials.jsx:160-163 | a card enters from +1000 exactly for a positive direction, otherwise from -1000 |
| Testimonials.ExitX | src/components/Testimonials.jsx:169-173 | a card exits to +1000 exactly for a negative direction, and for a real move to the opposite of its entry side |
| Testimonials.Carousel.constructor | src/components/Testimonials.jsx:116-135 | the carousel starts on testimonial 0 with direction 0, within its invariant |
| Testimonials.Carousel.Next | src/components/Testimonials.jsx:137-142 | the index moves to the wrapped successor, the direction becomes 1, and the invariant is kept |
| Testimonials.Carousel.Prev | src/components/Testimonials.jsx:152-157 | the index moves to the wrapped predecessor, the direction becomes -1, and the invariant is kept |
| Testimonials.Carousel.SelectDot | src/components/Testimonials.jsx:225-232 | the index becomes the clicked dot, with direction 1 for a later dot and -1 otherwise; the invariant is kept |
| Testimonials.Carousel.Current | src/components/Testimonials.jsx:210-212 | the displayed testimonial is always an entry of the list |
| ThemeContext.LightThemeTokens | src/context/ThemeContext.jsx:4-19 | the light theme defines exactly the fourteen token names |
| ThemeContext.DarkThemeTokens | src/context/ThemeContext.jsx:21-36 | the dark theme defines exactly the fourteen token names |
| ThemeContext.TokenCount | src/context/ThemeContext.jsx:4-19 | there are fourteen distinct token names |
| ThemeContext.ThemesShareAccents | src/context/ThemeContext.jsx:4-36 | accent, accentHover, error and success agree across the themes, and the backgrounds differ |
| ThemeContext.ThemesDiffer | src/context/ThemeContext.jsx:4-36 | the two themes are different maps |
| ThemeContext.InitialIsDark | src/context/ThemeContext.jsx:49-52 | nothing stored, or an empty string, gives dark; any other stored string gives dark exactly when it is `dark` |
| ThemeContext.Persisted | src/context/ThemeContext.jsx:59 | the stored value is `dark` or `light`, and reading it back gives the same flag |
| ThemeContext.SelectTheme | src/context/ThemeContext.jsx:62 | the theme is the dark map exactly when the flag is set, and the light map exactly when it is not; both have the full token set |
| ThemeContext.UseTheme | src/context/ThemeContext.jsx:40-46 | outside a provider the result is the fixed error; inside, it is the provider's value |
| ThemeContext.ThemeProvider.constructor | src/context/ThemeContext.jsx:49-60 | the flag is read from the stored value, and the mount run of the effect stores it back |
| ThemeContext.ThemeProvider.ToggleTheme | src/context/ThemeContext.jsx:54-60 | the flag is negated, and storage again holds the value for the new flag |
| ThemeContext.ThemeProvider.Reloaded | src/context/ThemeContext.jsx:50-59 | re-initialising from what was stored gives back the current flag |
| ThemeContext.ThemeProvider.Value | src/context/ThemeContext.jsx:62-65 | the context carries the flag, the dark map exactly when the flag is set, and the light map exactly when it is clear |
| ThemeContext.DoubleToggleRestores | src/context/ThemeContext.jsx:54-56 | two toggles restore the flag and its stored value |

## Left out

- Styling: every styled-components template, media query and `clamp` rule is presentation only.
- Animation: the framer-motion variants, springs, durations, hover and tap scales, and `AnimatePresence` keys are library configuration. Only the ±1000 offsets are kept.
- Timers: the 1500 ms simulated send (src/components/Contact.jsx:285) and the 5000 ms success timeout (src/components/Contact.jsx:289) become the separate atomic steps `CompleteSend` and `SuccessTimeout`. The wait itself is not modelled. `HandleChange` may be called between `HandleSubmit` and `CompleteSend`, and text typed then is cleared by `CompleteSend`, as src/components/Contact.jsx:288 does.
- The carousel's `setInterval` and its reset on every index change (src/components/Testimonials.jsx:144-150) are left out. A tick is a call to `Next`.
- Storage is an abstract cell. A failing or unavailable `localStorage` is not modelled.
- React plumbing: hooks, context creation, re-rendering and event objects are replaced by class fields and method calls.
- Contact.ContactForm.HandleSubmit: requires that no send is in progress, because the submit button is disabled while `isSubmitting` (src/components/Contact.jsx:411). A second submit during a send is not modelled.
- Testimonials.Carousel.SelectDot: requires the clicked index to be in range, because dots are drawn one per testimonial (src/components/Testimonials.jsx:225). The code itself has no range check. A click on the current dot records direction -1, as the code does.
- ThemeContext.ThemeProvider.Value: the context value at src/context/ThemeContext.jsx:65 also carries `toggleTheme`. `ContextValue` holds only the theme and the flag; consumers call `ToggleTheme` on the provider directly.
- ThemeContext.ThemeProvider.constructor: combines the `useState` initialiser with the mount run of the persistence effect in one step.
- Projects.UpperCase: covers only the ASCII letters. `toUpperCase` on other scripts (e.g. `ß` to `SS`, which changes the length) is not modelled. All the category names are ASCII.
- Strings: Dafny strings are sequences of Unicode scalar values, where JavaScript uses UTF-16 code units. This does not matter for the whitespace set, which lies entirely in the Basic Multilingual Plane.
- Routing and page wrappers (src/App.jsx, src/pages) are composition only. The navigation link to `/testimonials` (src/components/Navbar.jsx:196) has no matching route in src/App.jsx:19-25. This defect is noted here and not modelled.
- Navbar (menu toggle), Hero (scroll-driven floating-point transforms) and Services (a static list) hold no logic worth modelling.
