# Split Lease search and listing pages: a verified model

Split Lease is a rental site where guests book a room for some nights of
each week. This project models the interactive core of its static pages and
components. There are eleven of them:

- **Filter structure validator.** A build-time Python script checks that the search page's HTML contains
  the filter panel's pieces. The model replays start tags and text through
  the parser, then runs the twelve checks and sets the exit code.
- **Filter island.** The search page's filter panel keeps its state in the address bar. It
  parses and writes back `schedule_days`, `price_min`, `price_max`,
  `room_types` and `sort_by`, and responds to day buttons, the price bucket,
  room type boxes, the sort menu and the schedule selector.
- **Schedule selector.** The user picks weekdays by clicking or dragging.
  The component checks contiguity, including selections that wrap around the
  week, and checks the night count.
- **Proposal menu.** It derives check-in and check-out days, nights per
  week, the four-week rent, the reservation span, host preference warnings
  and the proposal it reports.
- **Footer.** It holds the referral and import-listing forms and its mount
  script, which reads `data-*` attributes.
- **Home page script.** It covers the URL lock, cookie-based login
  detection, the session and cache windows, the explore buttons, the search
  redirect, support actions and the import form.
- **Listing image grid.** Four slots, each with its tab order, label,
  picture, error state and click.
- **Property header.** The title, the location line and the guest details.
- **Site header.** The dropdown's open, close, hover and keyboard state
  machine, the mobile menu toggle, the default props, and the mount script
  that picks the logo path.

JavaScript's built-ins are given concrete definitions so the round trips can
be proved:

- `encodeURIComponent` / `decodeURIComponent` use UTF-8 percent encoding
  (section 2.1 of RFC 3986, with the unreserved set of ECMA-262's
  `encodeURIComponent`).
- `parseInt` skips leading whitespace, takes an optional sign and the
  leading decimal digits, and gives NaN (`None`) without digits.
- `String.prototype.split`, `join`, `trim` and `toLowerCase` are modelled
  for ASCII.
- A `Set` is an insertion-ordered sequence without duplicates.
- Numeric sort is `(a, b) => a - b`; the default `sort()` is text order.

Code that updates state in place becomes a class whose methods are proved
against specification functions. Pure computations become functions and
lemmas.

Where code and prose descriptions of the system disagree, the model follows
the code. Examples:

- `header.js` renders the header a second time with no props, so its logo
  choice is overwritten. That second block also accepts the library's
  `SiteHeader` export when `Header` is missing.
- The search panel's day buttons sort bubble numbers with the default text
  comparator.
- `redirectToSearch` ignores its second argument.

## Model

| member | source | states |
|---|---|---|
| Collections.Dedup | app/split-lease/components/src/ProposalMenu/ProposalMenu.tsx:67 | `new Set(xs)` keeps exactly the elements of the input, once each |
| Collections.DedupOrder | app/split-lease/components/src/ProposalMenu/ProposalMenu.tsx:67 | a Set keeps its elements in the order of their first insertion |
| Collections.DedupNoDup | app/split-lease/components/src/SearchScheduleSelector/SearchScheduleSelector.tsx:43 | building a Set from a list without duplicates keeps the list as it is |
| Collections.Remove | app/split-lease/pages/search/js/filters-island.umd.js:141 | `Set.delete`: the element is gone, everything else is kept, no duplicates appear |
| Collections.Add | app/split-lease/pages/search/js/filters-island.umd.js:141 | `Set.add`: the element is present, everything else is kept, no duplicates appear |
| Collections.Toggle | app/split-lease/components/src/ProposalMenu/ProposalMenu.tsx:115-125 | toggling flips membership of the element only and keeps the set duplicate-free |
| Collections.Map | app/split-lease/pages/search/js/filters-island.umd.js:244 | `Array.map` keeps the length and applies the function pointwise |
| DaySets.Members | app/split-lease/components/src/SearchScheduleSelector/SearchScheduleSelector.tsx:59 | the set of a day list has exactly the list's elements |
| DaySets.Min | app/split-lease/components/src/ProposalMenu/ProposalMenu.tsx:77 | the first day of the ascending sort is an element no larger than any other |
| DaySets.Max | app/split-lease/components/src/ProposalMenu/ProposalMenu.tsx:78 | the last day of the ascending sort is an element no smaller than any other |
| DaySets.InsertAsc | app/split-lease/components/src/SearchScheduleSelector/SearchScheduleSelector.tsx:59 | inserting a day adds exactly that day to the multiset |
| DaySets.SortAsc | app/split-lease/components/src/SearchScheduleSelector/SearchScheduleSelector.tsx:59 | `sort((a, b) => a - b)` returns an ascending permutation of its input |
| DaySets.SortAscOfSet | app/split-lease/components/src/ProposalMenu/ProposalMenu.tsx:76 | sorting a Set's days gives a strictly increasing list with the same members and length |
| DaySets.NoDupCount | app/split-lease/components/src/ProposalMenu/ProposalMenu.tsx:76 | a Set's elements occur at most once in its sorted copy |
| DaySets.IncreasingUnique | app/split-lease/components/src/SearchScheduleSelector/SearchScheduleSelector.tsx:59 | two strictly increasing lists with the same members are equal, so the sorted view of a day set is unique |
| DaySets.Range | app/split-lease/components/src/SearchScheduleSelector/SearchScheduleSelector.tsx:81-89 | the run `lo, lo+1, ..., hi-1` has the right length and elements |
| DaySets.ArcSize | app/split-lease/components/src/SearchScheduleSelector/SearchScheduleSelector.tsx:163-173 | `n` consecutive weekdays from any start, wrapping after Saturday, are `n` distinct weekdays |
| Strings.ContainsAt | app/split-lease/pages/home/js/home.js:16-19 | `includes` holds exactly when the substring occurs at some position |
| Strings.ContainsMiddle | app/split-lease/pages/home/js/home.js:16-19 | a string contains anything placed inside it |
| Strings.ContainsChar | app/split-lease/pages/home/js/home.js:1439 | `includes` of a one-character string is membership of that character |
| Strings.IndexOf | app/split-lease/pages/search/js/filters-island.umd.js:9 | `indexOf` of a character is -1 exactly when it is absent, otherwise its first position |
| Strings.IndexOfAt | app/split-lease/pages/search/js/filters-island.umd.js:9 | the first occurrence of a character is what `indexOf` returns |
| Strings.Find | app/split-lease/pages/shared/js/header.js:10 | nothing is found exactly when the separator occurs nowhere; a found position is an occurrence with no earlier one |
| Strings.SplitOn | app/split-lease/pages/home/js/home.js:39 | `split('; ')` returns at least one piece, and no piece holds the separator |
| Strings.JoinSplitOn | app/split-lease/pages/home/js/home.js:39 | joining the pieces of a split with the separator gives the string back |
| Strings.SplitOnJoin | app/split-lease/pages/home/js/home.js:39 | splitting a join of pieces that cannot start the separator gives the pieces back |
| Strings.SplitOnHead | app/split-lease/pages/home/js/home.js:57 | the first piece of a split is a prefix of the string |
| Strings.Split | app/split-lease/pages/search/js/filters-island.umd.js:7 | `split(c)` always returns at least one piece |
| Strings.FindFirstChar | app/split-lease/pages/search/js/filters-island.umd.js:9 | the first occurrence of a character after a prefix without it is found at the prefix's length |
| Strings.FindNoChar | app/split-lease/pages/search/js/filters-island.umd.js:9 | a character that does not occur is not found |
| Strings.FindAfter | app/split-lease/pages/home/js/home.js:39 | a separator after a prefix that cannot start it is found at the prefix's length |
| Strings.FindNone | app/split-lease/pages/home/js/home.js:39 | a separator whose first character does not occur is not found |
| Strings.SplitJoin | app/split-lease/pages/search/js/filters-island.umd.js:30 | splitting `join(c)` of pieces free of `c` gives the pieces back |
| Strings.SplitFirst | app/split-lease/pages/home/js/home.js:39 | splitting at the first separator yields the prefix followed by the split of the rest |
| Strings.SplitConcat | app/split-lease/pages/search/js/filters-island.umd.js:7 | splitting around one separator splits the two sides independently |
| Strings.JoinNoChar | app/split-lease/pages/search/js/filters-island.umd.js:38 | a join introduces no character absent from the pieces and the separator |
| Strings.JoinNonEmpty | app/split-lease/pages/search/js/filters-island.umd.js:38 | a join whose first piece is non-empty is non-empty |
| Strings.JoinHead | app/split-lease/pages/search/js/filters-island.umd.js:38 | a join starts with its first piece's first character |
| Strings.NonEmpty | app/split-lease/pages/search/js/filters-island.umd.js:7 | `filter(Boolean)` keeps only non-empty strings |
| Strings.NonEmptyAppend | app/split-lease/pages/search/js/filters-island.umd.js:7 | filtering distributes over concatenation |
| Strings.NonEmptyId | app/split-lease/pages/search/js/filters-island.umd.js:7 | filtering a list without empty strings changes nothing |
| Strings.TrimStart | app/split-lease/components/src/Footer/Footer.tsx:75 | removes exactly the leading whitespace and returns a suffix of the input |
| Strings.TrimEnd | app/split-lease/components/src/Footer/Footer.tsx:75 | removes exactly the trailing whitespace and returns a prefix of the input |
| Strings.Trim | app/split-lease/components/src/Footer/Footer.tsx:87 | `trim()` is the slice of the input that starts after its leading whitespace; everything cut before and after the slice is whitespace, and the slice has no whitespace at either end |
| Strings.TrimEmpty | app/split-lease/components/src/Footer/Footer.tsx:75 | `trim()` is empty exactly when every character is whitespace |
| Strings.TrimNonBlank | app/split-lease/components/src/Footer/Footer.tsx:87 | a string with any non-whitespace character trims to a non-empty string |
| Strings.LowerChar | app/split-lease/pages/home/js/home.js:573 | upper-case ASCII letters map to lower case, everything else is unchanged |
| Strings.LowerAscii | app/split-lease/pages/home/js/home.js:395 | `toLowerCase` keeps the length and lowers each character |
| Strings.ReplaceChar | app/split-lease/pages/shared/js/header.js:9 | `replace(/\\/g, '/')` keeps the length and replaces exactly the backslashes |
| Strings.WithClass | app/split-lease/components/src/PropertyHeader/PropertyHeader.tsx:23 | the class list starts with the base class and equals it exactly when no (or an empty) extra class is given |
| Strings.WithClassWords | app/split-lease/components/src/Header/Header.tsx:153 | the class attribute's words are the base class followed by the extra class's words |
| JsNumbers.DigitChar | app/split-lease/pages/search/js/filters-island.umd.js:30 | a digit value prints as the digit character with that value |
| JsNumbers.DigitValue | app/split-lease/pages/search/js/filters-island.umd.js:13 | a digit character's value prints back as that character |
| JsNumbers.NatToString | app/split-lease/pages/search/js/filters-island.umd.js:32-33 | a non-negative number prints as a non-empty string of digits |
| JsNumbers.IntToString | app/split-lease/pages/search/js/filters-island.umd.js:32-33 | a number prints as digits with at most a minus sign, and as digits only when non-negative |
| JsNumbers.LeadingDigits | app/split-lease/pages/search/js/filters-island.umd.js:15 | the longest prefix of digits: every character in it is a digit and the next one is not |
| JsNumbers.ParseInt | app/split-lease/pages/search/js/filters-island.umd.js:15 | `parseInt(s, 10)` is NaN exactly when no digit follows the leading whitespace and sign |
| JsNumbers.SignStripped | app/split-lease/pages/search/js/filters-island.umd.js:15 | one leading `+` or `-` is removed, and only that |
| JsNumbers.DigitsValueOfNat | app/split-lease/pages/search/js/filters-island.umd.js:15 | the digits a non-negative number prints as have that number's value |
| JsNumbers.LeadingDigitsAll | app/split-lease/pages/search/js/filters-island.umd.js:15 | an all-digit string is its own leading digits |
| JsNumbers.LeadingDigitsStop | app/split-lease/pages/search/js/filters-island.umd.js:15 | the leading digits stop at the first non-digit |
| JsNumbers.TrimStartNumeral | app/split-lease/pages/search/js/filters-island.umd.js:15 | a printed number has no leading whitespace to skip |
| JsNumbers.ParseIntPrinted | app/split-lease/pages/home/js/home.js:95 | `parseInt` reads back any printed integer followed by a non-digit |
| JsNumbers.ParseIntToString | app/split-lease/pages/search/js/filters-island.umd.js:15 | `parseInt(String(n)) == n` for every integer |
| JsNumbers.IntToStringInjective | app/split-lease/pages/search/js/filters-island.umd.js:30 | different integers print differently |
| JsNumbers.JsRem | app/split-lease/pages/search/js/filters-island.umd.js:48-49 | JavaScript's `%` truncates toward zero: the remainder has the dividend's sign and is smaller than the divisor |
| UriComponent.HexDigit | app/split-lease/pages/search/js/filters-island.umd.js:30 | an escape's hex digit is an upper-case hexadecimal character |
| UriComponent.HexValue | app/split-lease/pages/search/js/filters-island.umd.js:10-11 | a hex digit read back is below 16 |
| UriComponent.HexValueOfDigit | app/split-lease/pages/search/js/filters-island.umd.js:10-11 | reading a written hex digit gives its value back |
| UriComponent.Utf8 | app/split-lease/pages/search/js/filters-island.umd.js:37 | a character's UTF-8 encoding is one to four bytes |
| UriComponent.Escape | app/split-lease/pages/search/js/filters-island.umd.js:37 | a byte escapes to `%` and two hex digits |
| UriComponent.EscapeAll | app/split-lease/pages/search/js/filters-island.umd.js:37 | a byte sequence escapes to three characters per byte |
| UriComponent.EncodeChar | app/split-lease/pages/search/js/filters-island.umd.js:37 | each character encodes to at least one character |
| UriComponent.Encode | app/split-lease/pages/search/js/filters-island.umd.js:37 | `encodeURIComponent` never shortens its input |
| UriComponent.EscapedByte | app/split-lease/pages/search/js/filters-island.umd.js:10-11 | a successfully read escape is `%` and two hex digits and gives a byte |
| UriComponent.Continuation | app/split-lease/pages/search/js/filters-island.umd.js:10-11 | a UTF-8 continuation escape carries six payload bits |
| UriComponent.DecodeEscape | app/split-lease/pages/search/js/filters-island.umd.js:10-11 | a decoded escape sequence consumes at least three characters |
| UriComponent.DecodePlain | app/split-lease/pages/home/js/home.js:43 | `decodeURIComponent` leaves text without `%` unchanged |
| UriComponent.Decode | app/split-lease/pages/search/js/filters-island.umd.js:10-11 | `decodeURIComponent` never lengthens its input |
| UriComponent.DecodeMalformed | app/split-lease/pages/home/js/home.js:42 | a `%` that does not start a well-formed escape makes decoding throw, wherever it stands |
| UriComponent.LonePercent | app/split-lease/pages/home/js/home.js:42 | a lone `%` throws |
| UriComponent.EscapeAllAt | app/split-lease/pages/search/js/filters-island.umd.js:10-11 | the j-th escape of an escaped byte sequence reads back the j-th byte |
| UriComponent.DecodeEscapeTwo | app/split-lease/pages/search/js/filters-island.umd.js:10-11 | a two-byte UTF-8 escape decodes to its character |
| UriComponent.DecodeEscapeThree | app/split-lease/pages/search/js/filters-island.umd.js:10-11 | a three-byte UTF-8 escape decodes to its character |
| UriComponent.Utf8FourValue | app/split-lease/pages/search/js/filters-island.umd.js:10-11 | the four-byte UTF-8 split of a code point adds back to it |
| UriComponent.DecodeEscapeFour | app/split-lease/pages/search/js/filters-island.umd.js:10-11 | a four-byte UTF-8 escape decodes to its character |
| UriComponent.DecodeEscapeOfChar | app/split-lease/pages/search/js/filters-island.umd.js:10-11 | every escaped character decodes to itself, consuming its whole escape |
| UriComponent.DecodeEncodeChar | app/split-lease/pages/search/js/filters-island.umd.js:10-11 | decoding an encoded character then the rest is that character then the decoded rest |
| UriComponent.DecodeEncode | app/split-lease/pages/search/js/filters-island.umd.js:10-11 | `decodeURIComponent(encodeURIComponent(s)) == s` for every string |
| UriComponent.EscapeAllChars | app/split-lease/pages/search/js/filters-island.umd.js:37 | an escape contains only `%` and hex digits |
| UriComponent.EncodeChars | app/split-lease/pages/search/js/filters-island.umd.js:37 | encoded text contains only unreserved characters, `%` and hex digits |
| UriComponent.EncodeNoDelimiters | app/split-lease/pages/search/js/filters-island.umd.js:38 | encoded text contains no `&`, `=`, `,`, `;` or space, so it never breaks a query or cookie |
| UriComponent.EncodeNonEmpty | app/split-lease/pages/search/js/filters-island.umd.js:37 | a non-empty value encodes to a non-empty value |
| FilterStructure.MarkerContext | app/split-lease/validate_structure.py:56-65 | each context is chosen exactly when its marker is in the class and no earlier marker is, in the order schedule, property type, amenities, bedroom, bathroom; no context exactly when none of the five is present |
| FilterStructure.MarkIds | app/split-lease/validate_structure.py:36-53 | seeing a tracked id sets exactly that id's flag and changes no count |
| FilterStructure.AddOne | app/split-lease/validate_structure.py:68-80 | counting a control adds one to the current context's count only |
| FilterStructure.Step | app/split-lease/validate_structure.py:30-84 | text never changes the context; a start tag whose class carries a marker sets it; any other tag keeps it |
| FilterStructure.FilterElementParser.constructor | app/split-lease/validate_structure.py:14-28 | the parser starts with every flag false, every counter zero and no current context |
| FilterStructure.FilterElementParser.HandleStartTag | app/split-lease/validate_structure.py:30-80 | the parser's new state is one `Step` of the specification on the tag |
| FilterStructure.FilterElementParser.MarkId | app/split-lease/validate_structure.py:36-53 | the id handling updates the flags as `MarkIds` says and keeps the context |
| FilterStructure.FilterElementParser.TrackContext | app/split-lease/validate_structure.py:56-65 | the class handling moves to the marker's context and keeps the flags |
| FilterStructure.FilterElementParser.CountTag | app/split-lease/validate_structure.py:68-80 | a checkbox `input` adds one in the schedule, property type or amenity context, an `option-button` `button` in the bedroom or bathroom context; nothing else is counted |
| FilterStructure.FilterElementParser.HandleData | app/split-lease/validate_structure.py:82-84 | text containing "Filters" sets the title flag |
| FilterStructure.FilterElementParser.Feed | app/split-lease/validate_structure.py:30-84 | feeding a page leaves the parser in the state `RunFrom` specifies |
| FilterStructure.Checks | app/split-lease/validate_structure.py:105-118 | the report has twelve named checks |
| FilterStructure.ChecksPassComplete | app/split-lease/validate_structure.py:105-124 | all twelve checks pass exactly when the page is complete: the six ids and the title present, at least 3 schedule and 4 property type checkboxes, 5 bedroom and 5 bathroom buttons, 6 amenity checkboxes |
| FilterStructure.ValidateHtml | app/split-lease/validate_structure.py:86-133 | validation passes exactly when the page exists and the parsed page is complete; a missing page fails |
| FilterStructure.AllPassed | app/split-lease/validate_structure.py:102-124 | the report loop ends with `all_passed` true exactly when every check in the list passed |
| FilterStructure.ExitCode | app/split-lease/validate_structure.py:135-137 | exit code 0 exactly on success, 1 otherwise |
| FilterStructure.RunFromAppend | app/split-lease/validate_structure.py:30-84 | parsing two pieces in turn equals parsing their concatenation |
| FilterStructure.IdFlagIff | app/split-lease/validate_structure.py:36-53 | a tracked id's flag is set exactly when a start tag carries that id |
| FilterStructure.TitleIff | app/split-lease/validate_structure.py:82-84 | the title flag is set exactly when some text contains "Filters" |
| FilterStructure.NoMarkerNoContext | app/split-lease/validate_structure.py:56-65 | without a marker class the parser never enters a context |
| FilterStructure.LastMarkerContext | app/split-lease/validate_structure.py:56-65 | the final context is the one the last marker tag selects |
| FilterStructure.StepAttribution | app/split-lease/validate_structure.py:68-80 | a tag adds to a count only in the context the parser is in |
| FilterStructure.NoMarkerNoCount | app/split-lease/validate_structure.py:68-80 | without a marker nothing is counted |
| FilterStructure.StepGrows | app/split-lease/validate_structure.py:30-84 | no event lowers a count or clears a flag |
| FilterStructure.AddOneGrows | app/split-lease/validate_structure.py:68-80 | counting only raises counts |
| FilterStructure.RunGrows | app/split-lease/validate_structure.py:30-84 | parsing more events only raises counts and sets flags |
| FilterStructure.Monotone | app/split-lease/validate_structure.py:86-124 | appending markup never undoes a passed count or flag |
| FilterStructure.OrderSensitive | app/split-lease/validate_structure.py:56-80 | a checkbox before its marker tag is not counted; after it, it is |
| FilterQuery.PriceOf | app/split-lease/pages/search/js/filters-island.umd.js:15-17 | a parsed price is always present: a number or NaN |
| FilterQuery.Numbers | app/split-lease/pages/search/js/filters-island.umd.js:13 | parsing the day list keeps at most one number per piece |
| FilterQuery.NumbersAppend | app/split-lease/pages/search/js/filters-island.umd.js:13 | the numbers of two runs of pieces are the first run's numbers followed by the second's |
| FilterQuery.NumbersOne | app/split-lease/pages/search/js/filters-island.umd.js:13 | a single piece gives its parsed number, or nothing when it parses to NaN |
| FilterQuery.NumbersMembers | app/split-lease/pages/search/js/filters-island.umd.js:13 | a number is kept exactly when some piece parses to it |
| FilterQuery.Segments | app/split-lease/pages/search/js/filters-island.umd.js:5-7 | after an optional leading `?`, the segments are non-empty and hold no `&` |
| FilterQuery.DaysPart | app/split-lease/pages/search/js/filters-island.umd.js:29-31 | a `schedule_days=` pair is written exactly when some day is selected |
| FilterQuery.MinPart | app/split-lease/pages/search/js/filters-island.umd.js:32 | a `price_min=` pair is written exactly when the minimum price is present, NaN included |
| FilterQuery.MaxPart | app/split-lease/pages/search/js/filters-island.umd.js:33 | a `price_max=` pair is written exactly when the maximum price is present, NaN included |
| FilterQuery.RoomPart | app/split-lease/pages/search/js/filters-island.umd.js:34-36 | a `room_types=` pair is written exactly when some room type is selected |
| FilterQuery.SortPart | app/split-lease/pages/search/js/filters-island.umd.js:37 | a `sort_by=` pair is written exactly when the sort key is a non-empty string |
| FilterQuery.Parts | app/split-lease/pages/search/js/filters-island.umd.js:28-37 | at most five pairs, and none exactly when no field is written |
| FilterQuery.ParseQuery | app/split-lease/pages/search/js/filters-island.umd.js:3-25 | the parsing loop computes the query the specification `QueryOf` gives, including the thrown decode error |
| FilterQuery.SetField | app/split-lease/pages/search/js/filters-island.umd.js:12-22 | the loop body's branch on the key updates the state as the specification `Apply` does, so each key changes only its own field |
| FilterQuery.Texts | app/split-lease/pages/search/js/filters-island.umd.js:30 | each day number prints as its decimal text |
| FilterQuery.StringifyQuery | app/split-lease/pages/search/js/filters-island.umd.js:27-39 | the string-building loop computes `QueryString` |
| FilterQuery.Apply | app/split-lease/pages/search/js/filters-island.umd.js:12-21 | each field changes only under its own key; `sort_by` sets the sort key to the value |
| FilterQuery.ApplyAll | app/split-lease/pages/search/js/filters-island.umd.js:8-23 | a last segment that fails to decode makes the whole run of pairs fail |
| FilterQuery.ApplyAllDecodes | app/split-lease/pages/search/js/filters-island.umd.js:8-23 | the run of pairs succeeds exactly when every segment decodes, checked in the order the loop visits them |
| FilterQuery.ApplyAllFails | app/split-lease/pages/search/js/filters-island.umd.js:8-23 | the run of pairs fails exactly when some segment, at any position, fails to decode |
| FilterQuery.QueryOf | app/split-lease/pages/search/js/filters-island.umd.js:3-25 | parsing throws exactly when one of the non-empty segments fails to decode |
| FilterQuery.QueryString | app/split-lease/pages/search/js/filters-island.umd.js:27-39 | the written query is empty exactly when no field is written |
| FilterQuery.ApplyAllNone | app/split-lease/pages/search/js/filters-island.umd.js:8-23 | a decode error stops the parse whatever follows |
| FilterQuery.ApplyAllAppend | app/split-lease/pages/search/js/filters-island.umd.js:8-23 | parsing two runs of pairs in turn is parsing their concatenation |
| FilterQuery.ApplyOne | app/split-lease/pages/search/js/filters-island.umd.js:9-22 | one pair applies its decoded key and value, or throws |
| FilterQuery.KeysPlain | app/split-lease/pages/search/js/filters-island.umd.js:12-21 | the five keys need no escaping |
| FilterQuery.PairOf | app/split-lease/pages/search/js/filters-island.umd.js:9-11 | a written `key=value` pair splits back at the first `=` into the key and the decoded value |
| FilterQuery.NumbersOfTexts | app/split-lease/pages/search/js/filters-island.umd.js:13 | printed day numbers parse back to themselves |
| FilterQuery.ParseIntNaN | app/split-lease/pages/search/js/filters-island.umd.js:32-33 | `String(NaN)` parses back to NaN |
| FilterQuery.PriceTextPlain | app/split-lease/pages/search/js/filters-island.umd.js:32-33 | a written price contains no `&` or `%` |
| FilterQuery.PriceRoundTrip | app/split-lease/pages/search/js/filters-island.umd.js:15-17 | a written price decodes unchanged and parses back to the same price, NaN included |
| FilterQuery.DaysPartApplies | app/split-lease/pages/search/js/filters-island.umd.js:13 | the written days pair restores the day list |
| FilterQuery.MinPartApplies | app/split-lease/pages/search/js/filters-island.umd.js:15 | the written `price_min` pair restores the minimum |
| FilterQuery.MaxPartApplies | app/split-lease/pages/search/js/filters-island.umd.js:17 | the written `price_max` pair restores the maximum |
| FilterQuery.RoomPartApplies | app/split-lease/pages/search/js/filters-island.umd.js:19 | the written room types pair restores the room types when none contains `,` |
| FilterQuery.SortPartApplies | app/split-lease/pages/search/js/filters-island.umd.js:21 | the written `sort_by` pair restores the sort key |
| FilterQuery.KeyedSegment | app/split-lease/pages/search/js/filters-island.umd.js:30-37 | a written pair contains no `&` and is not empty |
| FilterQuery.PartsPlain | app/split-lease/pages/search/js/filters-island.umd.js:27-38 | every written pair survives `split('&')` as one piece |
| FilterQuery.QueryRoundTrip | app/split-lease/pages/search/js/filters-island.umd.js:3-39 | parsing the written query gives back the same filter state for every state whose room types have no `,` and whose sort key is not empty |
| FilterQuery.SegmentsAppend | app/split-lease/pages/search/js/filters-island.umd.js:7 | appending `&pair` appends one piece |
| FilterQuery.ApplyLast | app/split-lease/pages/search/js/filters-island.umd.js:8-23 | the last pair is applied on top of the result of the others |
| FilterQuery.QueryOfSegments | app/split-lease/pages/search/js/filters-island.umd.js:3-7 | the query is the fold of the pairs over the empty state |
| FilterQuery.QueryAppend | app/split-lease/pages/search/js/filters-island.umd.js:3-23 | a pair appended to a query string is applied after the others |
| FilterQuery.LaterPriceWins | app/split-lease/pages/search/js/filters-island.umd.js:15-17 | a repeated price key overrides the earlier value |
| FilterQuery.LaterMinWins | app/split-lease/pages/search/js/filters-island.umd.js:15 | a later `price_min` replaces the one parsed so far |
| FilterQuery.LaterMaxWins | app/split-lease/pages/search/js/filters-island.umd.js:17 | a later `price_max` replaces the one parsed so far |
| FilterQuery.LaterSortWins | app/split-lease/pages/search/js/filters-island.umd.js:21 | a repeated `sort_by` overrides the earlier value |
| FilterQuery.UnknownKeyIgnored | app/split-lease/pages/search/js/filters-island.umd.js:12-22 | a pair with any other key changes nothing |
| FilterQuery.EmptyValues | app/split-lease/pages/search/js/filters-island.umd.js:11-21 | an empty days or room types value leaves the list unchanged; a bare `sort_by` sets an empty sort key |
| FilterQuery.EmptyQueries | app/split-lease/pages/search/js/filters-island.umd.js:4-7 | empty, `?` and `&&` queries parse to the empty state |
| FilterControls.ToBubble | app/split-lease/pages/search/js/filters-island.umd.js:48 | a day index maps to a bubble number from 1 to 7 |
| FilterControls.FromBubble | app/split-lease/pages/search/js/filters-island.umd.js:49 | a bubble number maps back to a day index from 0 to 6 |
| FilterControls.BubbleRoundTrip | app/split-lease/pages/search/js/filters-island.umd.js:48-49 | day index and bubble number convert into each other both ways |
| FilterControls.ToBubbleInjective | app/split-lease/pages/search/js/filters-island.umd.js:48 | distinct days get distinct bubble numbers |
| FilterControls.TextLessAsymmetric | app/split-lease/pages/search/js/filters-island.umd.js:110 | the default sort's text order is asymmetric |
| FilterControls.TextLessTransitive | app/split-lease/pages/search/js/filters-island.umd.js:110 | the default sort's text order is transitive |
| FilterControls.TextLessTotal | app/split-lease/pages/search/js/filters-island.umd.js:110 | the default sort's text order relates any two distinct strings |
| FilterControls.DigitOrder | app/split-lease/pages/search/js/filters-island.umd.js:110 | on single digits the text order is the numeric order |
| FilterControls.Insert | app/split-lease/pages/search/js/filters-island.umd.js:110 | inserting adds exactly one element and keeps the list duplicate-free |
| FilterControls.InsertSorted | app/split-lease/pages/search/js/filters-island.umd.js:110 | inserting keeps the list in text order |
| FilterControls.SortText | app/split-lease/pages/search/js/filters-island.umd.js:110 | `sort()` returns a permutation in text order |
| FilterControls.SortedUnique | app/split-lease/pages/search/js/filters-island.umd.js:110 | two text-sorted permutations of the same duplicate-free list are equal |
| FilterControls.SortedFirst | app/split-lease/pages/search/js/filters-island.umd.js:110 | no element precedes the first element of a text-sorted list |
| FilterControls.SortedTail | app/split-lease/pages/search/js/filters-island.umd.js:110 | the tail of a text-sorted list is text-sorted and holds the rest |
| FilterControls.SortedDigitsIncrease | app/split-lease/pages/search/js/filters-island.umd.js:110 | text-sorted distinct bubble numbers are numerically increasing |
| FilterControls.PressedIff | app/split-lease/pages/search/js/filters-island.umd.js:105 | a day button is pressed exactly when its bubble number is in the state |
| FilterControls.DayClick | app/split-lease/pages/search/js/filters-island.umd.js:106-111 | a click flips exactly that day's bubble and leaves the days sorted, distinct and in range |
| FilterControls.PressedAttributes | app/split-lease/pages/search/js/filters-island.umd.js:105 | the seven `aria-pressed` attributes written at build: button j is pressed exactly when day j is in the state |
| FilterControls.ClickFlipsPressed | app/split-lease/pages/search/js/filters-island.umd.js:105-111 | the pressed state rendered from the clicked state differs from the one rendered from the current state exactly at the clicked day |
| FilterControls.SelectedBubblesSpec | app/split-lease/pages/search/js/filters-island.umd.js:242-245 | a selector change stores exactly the selected days as sorted, distinct bubble numbers |
| FilterControls.WithBucket | app/split-lease/pages/search/js/filters-island.umd.js:126-130 | choosing a bucket selects it and keeps days, room types and sort |
| FilterControls.OneBucketSelected | app/split-lease/pages/search/js/filters-island.umd.js:119-131 | after choosing a bucket it is the only one shown as selected |
| FilterControls.ToggledRoomTypes | app/split-lease/pages/search/js/filters-island.umd.js:139-142 | a checkbox sets its room type to its checked state and keeps the others, without duplicates |
| FilterControls.InitialState | app/split-lease/pages/search/js/filters-island.umd.js:168-174 | the start state exists exactly when the query parses; it then has every field, and the query's days and room types |
| FilterControls.WithDefaults | app/split-lease/pages/search/js/filters-island.umd.js:168-174 | fields missing from the query take 0, 999999 and `recommendation_score`; present ones are kept |
| FilterControls.InitialWithoutQuery | app/split-lease/pages/search/js/filters-island.umd.js:168-174 | without a query the panel starts with the defaults, and only the "All Prices" bucket is selected |
| FilterControls.SearchOf | app/split-lease/pages/search/js/filters-island.umd.js:42-43 | the query part is empty exactly when no pair is written, and otherwise starts with `?` |
| FilterControls.UrlFor | app/split-lease/pages/search/js/filters-island.umd.js:41-45 | the new address starts with the path, and for a writable state what follows parses back to the state |
| FilterControls.SearchRoundTrip | app/split-lease/pages/search/js/filters-island.umd.js:41-45 | the `?query` that `replaceUrl` writes parses back to the state |
| FilterControls.ReloadRestores | app/split-lease/pages/search/js/filters-island.umd.js:41-45 | reloading the written address restores the whole panel state |
| FilterControls.ChoicesPlain | app/split-lease/pages/search/js/filters-island.umd.js:60-71 | the room type and sort values are non-empty and contain no `,` |
| FilterControls.ToggleKeepsClean | app/split-lease/pages/search/js/filters-island.umd.js:139-143 | toggling a room type keeps the state writable to the address bar without loss |
| FilterControls.FilterPanel.constructor | app/split-lease/pages/search/js/filters-island.umd.js:164-174 | the panel starts from the given state with no address written, and its day buttons' `aria-pressed` attributes rendered from that state |
| FilterControls.FilterPanel.SetState | app/split-lease/pages/search/js/filters-island.umd.js:180-183 | `setState` writes the state's address and keeps the state; the `aria-pressed` attributes stay |
| FilterControls.FilterPanel.ClickDay | app/split-lease/pages/search/js/filters-island.umd.js:106-111 | a click flips that day, writes the address and keeps the state clean and complete; the `aria-pressed` attributes are not rewritten, so the clicked button's attribute no longer matches the state |
| FilterControls.FilterPanel.ChooseBucket | app/split-lease/pages/search/js/filters-island.umd.js:126-131 | choosing a bucket sets both prices and writes the address; the `aria-pressed` attributes stay |
| FilterControls.FilterPanel.ChangeRoomType | app/split-lease/pages/search/js/filters-island.umd.js:139-144 | a checkbox change updates the room types and writes the address; the `aria-pressed` attributes stay |
| FilterControls.FilterPanel.ChooseSort | app/split-lease/pages/search/js/filters-island.umd.js:156 | choosing a sort sets it and writes the address; the `aria-pressed` attributes stay |
| FilterControls.FilterPanel.SelectionChange | app/split-lease/pages/search/js/filters-island.umd.js:242-246 | the schedule selector's change sets the days and writes the address; the `aria-pressed` attributes stay |
| FilterControls.Init | app/split-lease/pages/search/js/filters-island.umd.js:164-174 | no panel without the mount point or when the query throws; otherwise a complete state with the defaults applied, and `aria-pressed` attributes that match it |
| ScheduleSelector.DaysOfWeekIndexed | app/split-lease/components/src/SearchScheduleSelector/SearchScheduleSelector.tsx:22-30 | the seven days carry their own index |
| ScheduleSelector.IsContiguous | app/split-lease/components/src/SearchScheduleSelector/SearchScheduleSelector.tsx:56-90 | the loop-based check computes `Contiguous`: empty, a run, or a run that wraps from Saturday to Sunday |
| ScheduleSelector.Contiguous | app/split-lease/components/src/SearchScheduleSelector/SearchScheduleSelector.tsx:56-90 | no day or a single day is always contiguous |
| ScheduleSelector.RisesByOne | app/split-lease/components/src/SearchScheduleSelector/SearchScheduleSelector.tsx:59-69 | the first loop decides whether each sorted day is one more than the previous |
| ScheduleSelector.SingleGap | app/split-lease/components/src/SearchScheduleSelector/SearchScheduleSelector.tsx:71-79 | the second loop decides whether exactly one step between sorted days is larger than one |
| ScheduleSelector.GapCountStep | app/split-lease/components/src/SearchScheduleSelector/SearchScheduleSelector.tsx:71-79 | counting gaps one step at a time adds one per step greater than 1 |
| ScheduleSelector.GapCountWhole | app/split-lease/components/src/SearchScheduleSelector/SearchScheduleSelector.tsx:71-79 | the gap count over the whole list is the count of the list |
| ScheduleSelector.NormalRunPrefix | app/split-lease/components/src/SearchScheduleSelector/SearchScheduleSelector.tsx:59-69 | every prefix of a run is a run |
| ScheduleSelector.GapCountPrefix | app/split-lease/components/src/SearchScheduleSelector/SearchScheduleSelector.tsx:71-79 | a prefix has no more gaps than the whole |
| ScheduleSelector.NoGapIsNormal | app/split-lease/components/src/SearchScheduleSelector/SearchScheduleSelector.tsx:59-79 | an increasing list has no gap exactly when it is a run |
| ScheduleSelector.NormalRunIsRange | app/split-lease/components/src/SearchScheduleSelector/SearchScheduleSelector.tsx:59-69 | a run is the range from its first day |
| ScheduleSelector.OneGapSplit | app/split-lease/components/src/SearchScheduleSelector/SearchScheduleSelector.tsx:81-89 | a list with one gap is two runs |
| ScheduleSelector.GapCountAppendRun | app/split-lease/components/src/SearchScheduleSelector/SearchScheduleSelector.tsx:71-79 | appending a run adds a gap exactly when it does not continue the list |
| ScheduleSelector.ArcMember | app/split-lease/components/src/SearchScheduleSelector/SearchScheduleSelector.tsx:163-173 | a day lies in the n days from `s` exactly when its distance from `s`, counted modulo 7, is below n |
| ScheduleSelector.RangeMember | app/split-lease/components/src/SearchScheduleSelector/SearchScheduleSelector.tsx:59-69 | the range's members are the integers in it |
| ScheduleSelector.ArcNoWrap | app/split-lease/components/src/SearchScheduleSelector/SearchScheduleSelector.tsx:59-69 | a stretch that does not pass Saturday is a range |
| ScheduleSelector.ArcWrap | app/split-lease/components/src/SearchScheduleSelector/SearchScheduleSelector.tsx:81-89 | a stretch that passes Saturday is a start run plus an end run |
| ScheduleSelector.ContiguousIffArc | app/split-lease/components/src/SearchScheduleSelector/SearchScheduleSelector.tsx:56-90 | a non-empty selection is contiguous exactly when it is some stretch of consecutive days around the week |
| ScheduleSelector.ContiguousIsArc | app/split-lease/components/src/SearchScheduleSelector/SearchScheduleSelector.tsx:56-90 | a contiguous selection is a stretch of consecutive days |
| ScheduleSelector.RunIsArc | app/split-lease/components/src/SearchScheduleSelector/SearchScheduleSelector.tsx:59-69 | a run within the week is a stretch |
| ScheduleSelector.WrapIsArc | app/split-lease/components/src/SearchScheduleSelector/SearchScheduleSelector.tsx:81-89 | a wrapping selection (Sunday and Saturday, one gap) is a stretch |
| ScheduleSelector.ArcIsContiguous | app/split-lease/components/src/SearchScheduleSelector/SearchScheduleSelector.tsx:56-90 | every stretch of consecutive days passes the contiguity check |
| ScheduleSelector.RangeRun | app/split-lease/components/src/SearchScheduleSelector/SearchScheduleSelector.tsx:59-69 | a range is an increasing run |
| ScheduleSelector.WrapRunOrWrap | app/split-lease/components/src/SearchScheduleSelector/SearchScheduleSelector.tsx:81-89 | a start run plus an end run is increasing and passes the wrap-around test |
| ScheduleSelector.WrapEnds | app/split-lease/components/src/SearchScheduleSelector/SearchScheduleSelector.tsx:81-89 | such a selection starts on Sunday and ends on Saturday |
| ScheduleSelector.RangeSplit | app/split-lease/components/src/SearchScheduleSelector/SearchScheduleSelector.tsx:81-89 | adjacent ranges concatenate to one range |
| ScheduleSelector.IncreasingAppend | app/split-lease/components/src/SearchScheduleSelector/SearchScheduleSelector.tsx:81-89 | two increasing lists in order concatenate to an increasing list |
| ScheduleSelector.ArcStep | app/split-lease/components/src/SearchScheduleSelector/SearchScheduleSelector.tsx:170-173 | one more drag step adds the next day modulo 7 |
| ScheduleSelector.ArcEmpty | app/split-lease/components/src/SearchScheduleSelector/SearchScheduleSelector.tsx:170-173 | a drag of no days selects nothing |
| ScheduleSelector.MembersAdd | app/split-lease/components/src/SearchScheduleSelector/SearchScheduleSelector.tsx:172 | adding to the Set adds the day to its members |
| ScheduleSelector.DragCount | app/split-lease/components/src/SearchScheduleSelector/SearchScheduleSelector.tsx:163-168 | for two days of the week, the drag covers 1 to 7 days, ends on the entered day modulo 7, and is one day exactly when both are the same day |
| ScheduleSelector.MinMessage | app/split-lease/components/src/SearchScheduleSelector/SearchScheduleSelector.tsx:104 | the too-few message starts with "Please select at least " and the number after it reads back as the minimum |
| ScheduleSelector.MaxMessage | app/split-lease/components/src/SearchScheduleSelector/SearchScheduleSelector.tsx:111 | the too-many message starts with "Please select no more than " and the number after it reads back as the maximum |
| ScheduleSelector.DragRange | app/split-lease/components/src/SearchScheduleSelector/SearchScheduleSelector.tsx:159-173 | the drag loop selects exactly the `count` consecutive days from the start, wrapping, without duplicates |
| ScheduleSelector.DragSelection | app/split-lease/components/src/SearchScheduleSelector/SearchScheduleSelector.tsx:154-179 | a drag from one day to another selects 2 to 7 days, including both ends, and is always contiguous |
| ScheduleSelector.NoDupSize | app/split-lease/components/src/SearchScheduleSelector/SearchScheduleSelector.tsx:94 | a Set's size is its number of distinct days |
| ScheduleSelector.Validate | app/split-lease/components/src/SearchScheduleSelector/SearchScheduleSelector.tsx:92-125 | valid exactly when empty, or nights (days minus one) within bounds and, when required, contiguous; otherwise the first failing rule's message |
| ScheduleSelector.DefaultValidation | app/split-lease/components/src/SearchScheduleSelector/SearchScheduleSelector.tsx:37-39 | with the defaults a selection is valid exactly when empty or a stretch of 3 to 6 consecutive days |
| ScheduleSelector.Selector.constructor | app/split-lease/components/src/SearchScheduleSelector/SearchScheduleSelector.tsx:37-50 | the selector starts with the deduplicated initial days, no drag or error and no hide timer |
| ScheduleSelector.Selector.DisplayError | app/split-lease/components/src/SearchScheduleSelector/SearchScheduleSelector.tsx:127-147 | showing an error sets the message, restarts its six-second hide timer and reports it once, leaving the rest |
| ScheduleSelector.Selector.MouseDown | app/split-lease/components/src/SearchScheduleSelector/SearchScheduleSelector.tsx:149-152 | a mouse down records the day as press and drag start; the selection, the error state, the pending check and the reported messages stay |
| ScheduleSelector.Selector.MouseEnter | app/split-lease/components/src/SearchScheduleSelector/SearchScheduleSelector.tsx:154-179 | entering another day while pressed starts a drag and selects the stretch from the start to it; otherwise nothing changes; the press, drag start, error state, pending check and reported messages always stay |
| ScheduleSelector.Selector.MouseUp | app/split-lease/components/src/SearchScheduleSelector/SearchScheduleSelector.tsx:181-223 | no press: nothing; a click toggles the day and schedules its check; an invalid drag shows the validation message as the message text, reports it, starts the hide timer and clears the selection; nothing is reported or shown on any other path, the contiguity flag stays, and only a click replaces the pending check; the press ends |
| ScheduleSelector.Selector.CheckFires | app/split-lease/components/src/SearchScheduleSelector/SearchScheduleSelector.tsx:199-204 | the delayed check shows and reports the validation message, and starts the hide timer, when the selection it was set for is invalid; otherwise it shows and reports nothing; the drag state and contiguity flag stay |
| ScheduleSelector.Selector.SelectionEffect | app/split-lease/components/src/SearchScheduleSelector/SearchScheduleSelector.tsx:238-260 | one run of the effect, which React repeats whenever the selection, `showError`, the contiguity flag or `displayError` changed, so also right after every `displayError`: the contiguity flag is set exactly for a non-contiguous selection of more than one day; the message is shown and reported only when the flag is new and no message is showing; with fewer than two days, or without the contiguity rule, any message is hidden, whatever reported it; nothing else changes |
| ScheduleSelector.Selector.Reset | app/split-lease/components/src/SearchScheduleSelector/SearchScheduleSelector.tsx:225-236 | reset empties the selection, drops the pending check, cancels the hide timer and hides the message; the drag state, the message text, the contiguity flag and the reported messages stay |
| ScheduleSelector.Selector.ErrorTimeoutFires | app/split-lease/components/src/SearchScheduleSelector/SearchScheduleSelector.tsx:136-138 | the six-second timer hides the message when it is pending; nothing else changes |
| ScheduleSelector.Selector.CheckThenEffect | app/split-lease/components/src/SearchScheduleSelector/SearchScheduleSelector.tsx:199-260 | the delayed check followed by the effect's re-run: an invalid selection's message is reported exactly once, and with at most one day selected, or without the contiguity rule, it is hidden at once |
| ScheduleSelector.Selector.ReleaseThenEffect | app/split-lease/components/src/SearchScheduleSelector/SearchScheduleSelector.tsx:210-260 | a rejected drag followed by the effect's re-run: the message is reported once, the selection is empty and the message is already hidden |
| ProposalMenu.DayName | app/split-lease/components/src/ProposalMenu/ProposalMenu.tsx:80-92 | the name starts with the letter on the day's cell and ends in "day" |
| ProposalMenu.DayNameIsFullName | app/split-lease/components/src/ProposalMenu/ProposalMenu.tsx:80-92 | the menu's day names are the selector's full day names |
| ProposalMenu.CheckInCheckOut | app/split-lease/components/src/ProposalMenu/ProposalMenu.tsx:73-94 | no days gives no check-in or check-out; otherwise check-in is the earliest day's name and check-out the latest's |
| ProposalMenu.SortedEnds | app/split-lease/components/src/ProposalMenu/ProposalMenu.tsx:76-78 | the ascending sort starts with the minimum and ends with the maximum |
| ProposalMenu.CheckInCheckOutNames | app/split-lease/components/src/ProposalMenu/ProposalMenu.tsx:73-94 | check-in and check-out bracket every selected day |
| ProposalMenu.NightsPerWeek | app/split-lease/components/src/ProposalMenu/ProposalMenu.tsx:98 | nights are days minus one, and zero for no days |
| ProposalMenu.NightsBound | app/split-lease/components/src/ProposalMenu/ProposalMenu.tsx:98 | a week's selection gives 0 to 6 nights, 0 exactly for at most one day |
| ProposalMenu.EffectiveSpan | app/split-lease/components/src/ProposalMenu/ProposalMenu.tsx:101 | the custom weeks are used exactly when the custom input is shown and non-empty |
| ProposalMenu.CustomSpanUsed | app/split-lease/components/src/ProposalMenu/ProposalMenu.tsx:101 | typing a number as custom weeks makes it the span |
| ProposalMenu.Pricing | app/split-lease/components/src/ProposalMenu/ProposalMenu.tsx:97-109 | four-week rent is 4 times nights times the nightly price; the total is NaN exactly when the span is |
| ProposalMenu.ReservationTotalIsNightsTimesWeeks | app/split-lease/components/src/ProposalMenu/ProposalMenu.tsx:102 | the total is nights times price times weeks, and positive for positive inputs |
| ProposalMenu.SpanWarning | app/split-lease/components/src/ProposalMenu/ProposalMenu.tsx:141-144 | a NaN span never warns; an empty host range warns for every number |
| ProposalMenu.SpanWarningWiderRange | app/split-lease/components/src/ProposalMenu/ProposalMenu.tsx:141-144 | widening the host's range of weeks never adds the warning |
| ProposalMenu.SpanWarningIff | app/split-lease/components/src/ProposalMenu/ProposalMenu.tsx:141-144 | the span warning shows exactly when the span is outside the host's weeks |
| ProposalMenu.DaysWarning | app/split-lease/components/src/ProposalMenu/ProposalMenu.tsx:146-150 | the days warning needs a non-zero ideal and more nights than it |
| ProposalMenu.DaysWarningMonotone | app/split-lease/components/src/ProposalMenu/ProposalMenu.tsx:146-150 | selecting more days never removes the warning |
| ProposalMenu.DaysWarningNeedsDays | app/split-lease/components/src/ProposalMenu/ProposalMenu.tsx:146-150 | the warning shows exactly from ideal plus two days on |
| ProposalMenu.CustomWeeksOrZero | app/split-lease/components/src/ProposalMenu/ProposalMenu.tsx:161 | `parseInt(w) or 0`: a non-zero number is kept, NaN becomes 0 |
| ProposalMenu.Menu.Proposal | app/split-lease/components/src/ProposalMenu/ProposalMenu.tsx:153-166 | the reported proposal carries the move-in date, the strict flag, the selected days, the effective span and the pricing's rent and total; custom weeks only when the custom input is shown, and then the parsed weeks, or 0 when they do not parse or are 0 |
| ProposalMenu.Menu.constructor | app/split-lease/components/src/ProposalMenu/ProposalMenu.tsx:65-70 | the menu starts with the deduplicated initial days, the given span and no custom weeks |
| ProposalMenu.Menu.ToggleDay | app/split-lease/components/src/ProposalMenu/ProposalMenu.tsx:115-125 | a day toggle flips that day only and changes nothing else |
| ProposalMenu.Menu.ChangeSpan | app/split-lease/components/src/ProposalMenu/ProposalMenu.tsx:128-138 | "Other" (0) shows the custom input; any other option sets the span and clears custom weeks |
| ProposalMenu.Menu.SetCustomWeeks | app/split-lease/components/src/ProposalMenu/ProposalMenu.tsx:101 | the typed weeks become the span when non-empty |
| ProposalMenu.Menu.SetMoveInDate | app/split-lease/components/src/ProposalMenu/ProposalMenu.tsx:65 | sets the move-in date only |
| ProposalMenu.Menu.SetStrictMoveIn | app/split-lease/components/src/ProposalMenu/ProposalMenu.tsx:66 | sets the strict move-in flag only |
| FooterForm.DefaultColumnsShape | app/split-lease/components/src/Footer/Footer.tsx:26-55 | three default columns with 5, 4 and 4 links, the guests' first link going to search |
| FooterForm.ReferralPlaceholder | app/split-lease/components/src/Footer/Footer.tsx:112-116 | the placeholder is "Your friend's phone number" exactly for text and "Your friend's email" exactly for email |
| FooterForm.SubmitLabel | app/split-lease/components/src/Footer/Footer.tsx:197 | the button reads "Importing..." exactly while submitting, "Submit" otherwise |
| FooterForm.ImportAccepted | app/split-lease/components/src/Footer/Footer.tsx:87-97 | an accepted URL starts with `http` and has at least seven characters; an accepted email has `@` and `.` |
| FooterForm.HttpPrefix | app/split-lease/components/src/Footer/Footer.tsx:91 | both accepted URL prefixes start with `http` |
| FooterForm.ImportAcceptedIff | app/split-lease/components/src/Footer/Footer.tsx:87-97 | an import is accepted exactly when both fields are non-blank, the URL starts with http(s) and the email has `@` and `.` |
| FooterForm.Footer.constructor | app/split-lease/components/src/Footer/Footer.tsx:68-72 | the form starts by text with empty fields and not submitting |
| FooterForm.Footer.SetReferralMethod | app/split-lease/components/src/Footer/Footer.tsx:68 | sets the referral method only |
| FooterForm.Footer.SetReferralContact | app/split-lease/components/src/Footer/Footer.tsx:69 | sets the referral contact only |
| FooterForm.Footer.SetImportUrl | app/split-lease/components/src/Footer/Footer.tsx:70 | sets the import URL only |
| FooterForm.Footer.SetImportEmail | app/split-lease/components/src/Footer/Footer.tsx:71 | sets the import email only |
| FooterForm.Footer.ReferralSubmit | app/split-lease/components/src/Footer/Footer.tsx:74-84 | a blank contact does nothing; otherwise the callback gets method and contact and the contact is cleared |
| FooterForm.Footer.ImportSubmit | app/split-lease/components/src/Footer/Footer.tsx:86-103 | a rejected import does nothing; an accepted one starts submitting and calls back with URL and email |
| FooterForm.Footer.FinishImport | app/split-lease/components/src/Footer/Footer.tsx:105-109 | the timer ends submitting and clears both fields |
| FooterForm.ShowFlag | app/split-lease/pages/shared/js/footer.js:15-17 | a part is hidden exactly when its attribute is the text `false` |
| FooterForm.ShowFlagFalseIff | app/split-lease/pages/shared/js/footer.js:15-17 | a section is hidden exactly when its attribute is the string "false" |
| FooterForm.TermsUrl | app/split-lease/pages/shared/js/footer.js:18 | the terms link is the attribute when non-empty, never empty |
| FooterForm.Mount | app/split-lease/pages/shared/js/footer.js:6-18 | the footer mounts exactly when root, component and React exist, with the flags above |
| HomePage.ValidateUrl | app/split-lease/pages/home/js/home.js:16-19 | a URL passes the lock exactly when it contains the authorized domain |
| HomePage.UnderBaseUrlValid | app/split-lease/pages/home/js/home.js:22-24 | the base URL is `https://app.split.lease`, and every address built on it passes the lock |
| HomePage.FirstWithPrefix | app/split-lease/pages/home/js/home.js:39 | `find(startsWith)` returns the cookie at the first position whose cookie has the prefix, wherever it stands, and nothing exactly when none has it |
| HomePage.CookieValue | app/split-lease/pages/home/js/home.js:43 | `split('=')[1]` of `name=value` is the value up to any further `=` |
| HomePage.StripQuotes | app/split-lease/pages/home/js/home.js:45 | removing surrounding quotes drops at most one character at each end |
| HomePage.StripQuotesLeading | app/split-lease/pages/home/js/home.js:45 | a quote only at the start is dropped on its own |
| HomePage.StripQuotesTrailing | app/split-lease/pages/home/js/home.js:45 | a quote only at the end is dropped on its own |
| HomePage.StripQuotesLone | app/split-lease/pages/home/js/home.js:45 | a lone quote is removed, leaving the empty string |
| HomePage.StripQuotesWrapped | app/split-lease/pages/home/js/home.js:45 | a value wrapped in quotes comes out without them |
| HomePage.StripQuotesPlain | app/split-lease/pages/home/js/home.js:45 | a value without end quotes is unchanged |
| HomePage.Username | app/split-lease/pages/home/js/home.js:38-50 | absent exactly when no `username=` cookie exists; throws exactly when the first one's value does not decode |
| HomePage.Cookies | app/split-lease/pages/home/js/home.js:39 | splitting `document.cookie` on `; ` gives at least one cookie, none holding `; ` |
| HomePage.CookiesJoin | app/split-lease/pages/home/js/home.js:39 | joining the cookies with `; ` gives back the header they came from |
| HomePage.ReadCookies | app/split-lease/pages/home/js/home.js:38 | cookies joined with `; `, none holding `;`, are read back one by one |
| HomePage.CookieValueOf | app/split-lease/pages/home/js/home.js:42 | the value of `name=v` is `v` when `v` holds no `=` |
| HomePage.UsernameRoundTrip | app/split-lease/pages/home/js/home.js:38-50 | a username stored encoded is read back, without surrounding quotes, from the first `username` cookie wherever it stands |
| HomePage.UsernameAt | app/split-lease/pages/home/js/home.js:38-50 | when the k-th cookie is the first `username=` cookie, the lookup yields its decoded value without quotes, or throws when the value does not decode |
| HomePage.UsernameLonePercent | app/split-lease/pages/home/js/home.js:42 | the cookie string `username=%` makes the lookup throw |
| HomePage.UsernameThrows | app/split-lease/pages/home/js/home.js:42 | a `username` cookie with a malformed escape makes the lookup throw |
| HomePage.LoggedIn | app/split-lease/pages/home/js/home.js:54-57 | logged in only when the first `loggedIn` cookie starts with `loggedIn=true` |
| HomePage.TrueCookiePrefix | app/split-lease/pages/home/js/home.js:57 | a `loggedIn` cookie whose value is `true` starts with `loggedIn=true` |
| HomePage.LoggedInAt | app/split-lease/pages/home/js/home.js:54-57 | the value `true` in the first `loggedIn` cookie logs the user in |
| HomePage.LoggedInRoundTrip | app/split-lease/pages/home/js/home.js:54-57 | a `loggedIn=true` cookie means logged in, wherever it stands, when no earlier cookie is a `loggedIn` cookie |
| HomePage.NoCookieNotLoggedIn | app/split-lease/pages/home/js/home.js:58 | without a `loggedIn=` cookie the user is not logged in by cookie |
| HomePage.Get | app/split-lease/pages/home/js/home.js:86-88 | `getItem` gives a value exactly for stored keys |
| HomePage.SessionValid | app/split-lease/pages/home/js/home.js:94-95 | a session needs a stamp that parses, and is valid exactly while now is less than 86400000 ms past it |
| HomePage.SessionWindow | app/split-lease/pages/home/js/home.js:94-95 | a stored time is valid exactly while it is less than 24 hours old, stamps in the future included |
| HomePage.AuthDecision | app/split-lease/pages/home/js/home.js:71-107 | throws exactly when the username cookie does; logged in by cookie; otherwise a token, session or legacy cookie within the 24-hour window |
| HomePage.AuthWithinDay | app/split-lease/pages/home/js/home.js:86-106 | with a stored token and last-auth time, the user is logged in exactly within the day |
| HomePage.CacheLookup | app/split-lease/pages/home/js/home.js:954-979 | a fresh cache answers without changing storage; an expired one is removed and not used |
| HomePage.CacheWindow | app/split-lease/pages/home/js/home.js:957-975 | the cache is used exactly within one minute of its time, and cleared afterwards |
| HomePage.ExploreDays | app/split-lease/pages/home/js/home.js:395-409 | the weekend list exactly when the text mentions "weekend"; the weeknight list exactly when it mentions "weeknight" but neither "weekend" nor "weeks of the month"; otherwise the whole week |
| HomePage.SearchRedirect | app/split-lease/pages/home/js/home.js:1309-1315 | the search address passes the lock, lies under the base URL and ends with the selected days |
| HomePage.SearchUnderBase | app/split-lease/pages/home/js/home.js:1309-1315 | any address under the search path passes the lock |
| HomePage.ExploreDayLists | app/split-lease/pages/home/js/home.js:395-409 | the sent lists are weekend, weeknights and the whole week in bubble numbers |
| HomePage.SupportActionFor | app/split-lease/pages/home/js/home.js:572-587 | an unknown type does nothing; email, call and FAQ navigate |
| HomePage.SupportIgnoresCase | app/split-lease/pages/home/js/home.js:573-586 | the type is matched regardless of case, with the fixed targets |
| HomePage.ImportAccepted | app/split-lease/pages/home/js/home.js:1431-1441 | an accepted URL starts with `http` and has at least seven characters; an accepted email has `@` and `.` |
| HomePage.SameImportRule | app/split-lease/pages/home/js/home.js:1431-1441 | the home page accepts an import exactly when the footer form does |
| HomePage.Home.constructor | app/split-lease/pages/home/js/home.js:1427-1430 | the page starts logged out with empty import fields and an enabled button |
| HomePage.Home.CheckAuthStatus | app/split-lease/pages/home/js/home.js:71-107 | the auth check returns `AuthDecision` and sets the logged-in flag to it |
| HomePage.Home.CheckCachedAuth | app/split-lease/pages/home/js/home.js:954-979 | the cache check answers and updates storage as `CacheLookup` says |
| HomePage.Home.SetImportFields | app/split-lease/pages/home/js/home.js:1428-1429 | sets the two import fields only |
| HomePage.Home.ImportListing | app/split-lease/pages/home/js/home.js:1427-1447 | a rejected import does nothing; an accepted one saves the label, shows "Importing..." and disables the button |
| HomePage.Home.FinishImportListing | app/split-lease/pages/home/js/home.js:1450-1459 | the timer restores the label, enables the button and clears the fields |
| ImageGrid.Slots | app/split-lease/components/src/ListingImageGrid/ListingImageGrid.tsx:21 | four slots, holding the first images in order and empty beyond the list |
| ImageGrid.SlotsIgnoreRest | app/split-lease/components/src/ListingImageGrid/ListingImageGrid.tsx:21 | images after the fourth are never shown |
| ImageGrid.FilledSlots | app/split-lease/components/src/ListingImageGrid/ListingImageGrid.tsx:21 | a slot is filled exactly when the list reaches it, so filled slots come first |
| ImageGrid.TabIndex | app/split-lease/components/src/ListingImageGrid/ListingImageGrid.tsx:45 | tab index 0 exactly for filled slots, -1 for empty ones |
| ImageGrid.AriaLabel | app/split-lease/components/src/ListingImageGrid/ListingImageGrid.tsx:46 | "View image n: alt" for a filled slot, "Image slot n empty" otherwise |
| ImageGrid.AriaLabelNumbersSlot | app/split-lease/components/src/ListingImageGrid/ListingImageGrid.tsx:46 | the label tells filled from empty, and its number is the position counted from 1 |
| ImageGrid.LabelNumber | app/split-lease/components/src/ListingImageGrid/ListingImageGrid.tsx:46 | the number after the label's fixed head reads back |
| ImageGrid.DisplaySrc | app/split-lease/components/src/ListingImageGrid/ListingImageGrid.tsx:54 | the thumbnail is shown when present and non-empty, the full URL otherwise |
| ImageGrid.SlotView | app/split-lease/components/src/ListingImageGrid/ListingImageGrid.tsx:48-60 | placeholder exactly for empty slots, "unavailable" exactly for failed images, the picture otherwise |
| ImageGrid.UnavailableStays | app/split-lease/components/src/ListingImageGrid/ListingImageGrid.tsx:50-51 | a failed image keeps showing "Image unavailable" |
| ImageGrid.Click | app/split-lease/components/src/ListingImageGrid/ListingImageGrid.tsx:31-35 | the callback fires exactly for a filled slot when given, with the image and index |
| ImageGrid.ClickPassesImage | app/split-lease/components/src/ListingImageGrid/ListingImageGrid.tsx:31-43 | clicking slot i passes the i-th image |
| ImageGrid.Grid.constructor | app/split-lease/components/src/ListingImageGrid/ListingImageGrid.tsx:17-21 | the grid starts with its slots and no errors or loads |
| ImageGrid.Grid.Views | app/split-lease/components/src/ListingImageGrid/ListingImageGrid.tsx:40-60 | each slot shows what `SlotView` says for the current errors |
| ImageGrid.Grid.HandleImageError | app/split-lease/components/src/ListingImageGrid/ListingImageGrid.tsx:23-25 | an error adds the index to the error set only |
| ImageGrid.Grid.HandleImageLoad | app/split-lease/components/src/ListingImageGrid/ListingImageGrid.tsx:27-29 | a load adds the index to the loaded set only |
| ImageGrid.ErrorShowsUnavailable | app/split-lease/components/src/ListingImageGrid/ListingImageGrid.tsx:23-25 | after an error that slot shows "unavailable" and the others are unchanged |
| PropertyHeader.ContainerClass | app/split-lease/components/src/PropertyHeader/PropertyHeader.tsx:23 | the class list starts with `property-header` and is exactly that without an extra class |
| PropertyHeader.LocationText | app/split-lease/components/src/PropertyHeader/PropertyHeader.tsx:41-43 | the line starts with "Located in ", holds the neighbourhood right after it and ends with the city |
| PropertyHeader.Details | app/split-lease/components/src/PropertyHeader/PropertyHeader.tsx:47 | the details start with the property type and " - " and end with " max" |
| PropertyHeader.LocationReadBack | app/split-lease/components/src/PropertyHeader/PropertyHeader.tsx:41-43 | the location line reads back as neighbourhood and city when the neighbourhood has no comma |
| PropertyHeader.DetailsPlural | app/split-lease/components/src/PropertyHeader/PropertyHeader.tsx:47 | "guests" for every count but one, zero included |
| PropertyHeader.DetailsCount | app/split-lease/components/src/PropertyHeader/PropertyHeader.tsx:47 | the guest count reads back from the details line |
| PropertyHeader.Render | app/split-lease/components/src/PropertyHeader/PropertyHeader.tsx:22-49 | the title is shown verbatim; the location, details and class start as written |
| SiteHeader.Next | app/split-lease/components/src/Header/Header.tsx:45-120 | only a trigger click, Enter or Space changes `isOpen`; only the mouse changes hover; focus moves only to the trigger or an existing item |
| SiteHeader.ClickFlips | app/split-lease/components/src/Header/Header.tsx:45-57 | a trigger click flips `isOpen` and the menu, and two clicks restore `isOpen` |
| SiteHeader.HoverRules | app/split-lease/components/src/Header/Header.tsx:61-69 | entering marks hover; leaving hides the menu unless it was opened by click |
| SiteHeader.TriggerKeys | app/split-lease/components/src/Header/Header.tsx:75-84 | Enter and Space act like a click; ArrowDown focuses the first item without toggling |
| SiteHeader.NextItem | app/split-lease/components/src/Header/Header.tsx:93 | ArrowDown's target is an item index, the successor modulo the number of items |
| SiteHeader.ItemArrows | app/split-lease/components/src/Header/Header.tsx:88-98 | ArrowDown moves to the next item cyclically; ArrowUp moves back, the first item going to the trigger |
| SiteHeader.EscapeAndOutsideKeepIsOpen | app/split-lease/components/src/Header/Header.tsx:99-120 | Escape removes `active` and moves focus to the trigger without hiding the menu; an outside click removes `active` and hides the menu; neither changes `isOpen`; an inside click does nothing |
| SiteHeader.OutsideClickDesync | app/split-lease/components/src/Header/Header.tsx:99-120 | as written, open, then an outside click, then a click leaves the menu hidden |
| SiteHeader.IntendedStaysConsistent | app/split-lease/components/src/Header/Header.tsx:43-120 | with Escape and outside clicks also closing `isOpen`, the flag always agrees with the menu and every click flips it |
| SiteHeader.Dropdown.constructor | app/split-lease/components/src/Header/Header.tsx:43 | the dropdown starts closed, unhovered, with no focus |
| SiteHeader.Dropdown.Click | app/split-lease/components/src/Header/Header.tsx:45-57 | a click updates the state as `Next` says |
| SiteHeader.Dropdown.MouseEntered | app/split-lease/components/src/Header/Header.tsx:61-64 | mouse enter updates the state as `Next` says |
| SiteHeader.Dropdown.MouseLeft | app/split-lease/components/src/Header/Header.tsx:65-69 | mouse leave updates the state as `Next` says |
| SiteHeader.Dropdown.TriggerKeyDown | app/split-lease/components/src/Header/Header.tsx:75-84 | a trigger key updates the state as `Next` says |
| SiteHeader.Dropdown.ItemKeyDown | app/split-lease/components/src/Header/Header.tsx:88-106 | an item key updates the state as `Next` says |
| SiteHeader.Dropdown.DocumentClicked | app/split-lease/components/src/Header/Header.tsx:109-120 | a document click updates the state as `Next` says |
| SiteHeader.ToggleMobile | app/split-lease/components/src/Header/Header.tsx:17-26 | without the nav nothing changes; otherwise each class flips exactly when its element is present |
| SiteHeader.ToggleMobileInvolution | app/split-lease/components/src/Header/Header.tsx:17-26 | toggling the mobile menu twice restores it, and once flips all three parts when present |
| SiteHeader.MobileNav.constructor | app/split-lease/components/src/Header/Header.tsx:17-26 | the mobile menu starts closed |
| SiteHeader.MobileNav.Toggle | app/split-lease/components/src/Header/Header.tsx:17-26 | the toggle updates the menu as `ToggleMobile` says |
| SiteHeader.Resolved | app/split-lease/components/src/Header/Header.tsx:10-14 | missing props take the default logo and explore link; given ones are kept |
| SiteHeader.HeaderClass | app/split-lease/components/src/Header/Header.tsx:153 | the header's class list starts with `main-header` and is exactly that without an extra class |
| HeaderMount.LogoSrc | app/split-lease/pages/shared/js/header.js:8-14 | the parent directory's logo exactly for paths with a `/search/` segment after replacing backslashes |
| HeaderMount.ReplaceAppend | app/split-lease/pages/shared/js/header.js:9 | replacing backslashes distributes over concatenation |
| HeaderMount.SearchPagesLookUp | app/split-lease/pages/shared/js/header.js:9-12 | search pages are recognised with either path separator |
| HeaderMount.FirstMount | app/split-lease/pages/shared/js/header.js:6-18 | the first block renders exactly when everything is loaded, with the chosen logo and the search link |
| HeaderMount.SecondMount | app/split-lease/pages/shared/js/header.js:21-29 | the second block renders, with no props, exactly when React and the mount point are there and either `Header` or `SiteHeader` is exported |
| HeaderMount.SecondCoversFirst | app/split-lease/pages/shared/js/header.js:6-25 | the second block renders whenever the first does, and alone when only `SiteHeader` is exported |
| HeaderMount.Rendered | app/split-lease/pages/shared/js/header.js:16-28 | the page ends with the second block's render whenever anything renders, since the second render replaces the first |
| HeaderMount.LastRenderUsesDefaults | app/split-lease/pages/shared/js/header.js:6-29 | on a search page the final render uses the default logo, not the one the first block chose |

## Left out

- Timers are not modelled as time. The selector's delayed validation, its
  six-second error popup timeout and the 2-second import resets are
  separate events (`CheckFires`, `ErrorTimeoutFires`, `FinishImport`,
  `FinishImportListing`), which may come in any order. The filter panel's
  500 ms debounce and its `sl:filters:change` event are not modelled.
- DOM construction and React rendering are left out. Components are modelled
  by the values they render and the state they keep.
- Storage is left out as I/O. `localStorage` is a `map` parameter, and
  `document.cookie` and the clock are parameters.
- Side effects on the outside world are left out: `fetch`, iframes,
  `postMessage`, `alert`, `window.location` redirects and smooth scrolling.
- `openChatWidget` is not defined in `home.js`, so the model stops at
  choosing the chat action.
- Money uses real numbers. Floating-point rounding and `toFixed` formatting
  are not captured.
- Integers are unbounded. JavaScript's 2^53 limit is not captured.
- JsNumbers.ParseInt: only the base-10 call is modelled. Radix prefixes and
  other radices are left out because the code always passes 10 or no radix
  with decimal input.
- Strings.LowerAscii: lowers ASCII letters only. The code lowers page text
  (an explore button's text, a support card's label), and JavaScript's
  `toLowerCase` also maps non-ASCII letters: U+212A KELVIN SIGN lowers to
  `k`, so "WEE\u212AEND" contains "weekend" in the browser but not under
  `LowerAscii`. Non-ASCII case mappings are not captured; the keywords
  compared against are all ASCII.
- UriComponent.Decode: characters are whole code points. Lone UTF-16
  surrogates, which make `encodeURIComponent` throw, are not represented.
- Tokenising the HTML is left out. The validator receives start tags and text
  as events. A class attribute without a value, which makes the Python
  script raise a `TypeError`, is modelled as an empty class.
- The search page's mobile drawer toggle is left out (DOM only).
- ScheduleSelector: the random listing counts of the search page's schedule
  selector
  (app/split-lease/components/src/SearchScheduleSelector/SearchScheduleSelector.tsx:262-270)
  are left out (randomness).
- The header's `openAuth` redirect is left out (navigation only).
- Code in `home.js` that no handler reaches is left out: lines 1063-1303,
  and the exports at lines 1566-1567.
- HeaderMount.SecondMount: the library's `SiteHeader` export is taken to
  render the same header as `Header`. The component library's export list
  is not part of this model.
- `redirectToSearch` receives a second argument, but it is ignored.
  `SearchRedirect` takes only the days.
- A `Set`'s iteration order is insertion order. It is kept where results
  depend on it (`Dedup`, `Toggle`, `Add`) and abstracted to membership
  elsewhere.

## Findings

| source | as written | input that shows it | evidently intended | confidence | as-written member | corrected member |
|---|---|---|---|---|---|---|
| app/split-lease/components/src/Header/Header.tsx:99-101,109-120 | an outside click removes `active` and hides the menu, and Escape removes `active` while the inline opacity and visibility stay at 1 and visible; both leave the `isOpen` flag true | click the trigger, click outside the menu, click the trigger again: the menu stays hidden, and a further click is needed to show it | closing the menu by Escape or an outside click also resets `isOpen`, so every trigger click flips the menu | not executed | SiteHeader.OutsideClickDesync | SiteHeader.IntendedStaysConsistent |
| app/split-lease/pages/search/js/filters-island.umd.js:105-111,180-183 | a day button's `aria-pressed` is written only when the panel is built; the click handler updates the state and the address through `setState`, which does not render again | with no days selected, click the Sunday button: the state holds day 1 but the button still says `aria-pressed="false"` | the click also sets the button's `aria-pressed` from the new state, so exactly the clicked button's pressed state flips | not executed | FilterControls.FilterPanel.ClickDay | FilterControls.ClickFlipsPressed |
