# Direct-login renewal script, modelled in Dafny

`raw_renew.js` renews a server lease on a hosting panel in one pass:

1. It reads the arithmetic captcha on the login page, such as "3 + 5".
2. It posts the login with the answer.
3. It turns the `set-cookie` entries of the login reply into a `Cookie` header.
4. It posts the renewal with that cookie.
5. It judges the reply and exits with status 0 or 1.

The network calls and the HTML parsing are library I/O. Between them sit a few
deterministic rules, and this project models and proves those rules.

- `results.dfy` (module `Results`): the `Option` and `Result` wrappers.
- `captcha.dfy` (module `Captcha`): the search `(\d+)\s*([+-])\s*(\d+)` and the answer `n1 + n2` or `n1 - n2`.
  - The search is modelled on positions. `RunLength` is a greedy run of digits or whitespace. `MatchAt` is the one attempt the regular expression engine makes at a start position. `FindFrom` tries start positions from left to right.
  - The ghost predicate `Spans` is an independent definition: "these positions of the text match the pattern". Every search function is proved against it.
  - Because digits, whitespace and operators are disjoint classes, the engine never needs to backtrack, and the greedy runs give exactly the match a backtracking engine reports.
  - `\d` is the ASCII digits. `\s` is the ECMAScript WhiteSpace and LineTerminator code points.
- `cookie.dfy` (module `Cookie`): `set-cookie` entries cut at their first `;` and joined with `"; "`. An absent header or an empty joined value means "no login cookie".
  - `Split` is JavaScript's `split('; ')`. It is the inverse used to state what the header holds.
- `response.dfy` (module `Response`): the acceptance rule `status === 200 && data?.success !== false` and the message fallbacks `data?.message || statusText` and `data?.message || ''`.
  - `success` is three-valued plus "not a boolean": absent, a boolean, or another value. Only the boolean `false` equals `false` under `===`.
- `renew.dfy` (module `Renew`): one run of the script as a function of the captcha label and the server's two endpoints. The endpoints are passed as functions.
  - The run records the requests it sends and ends in `Renewed(message)` or in one of the script's errors. `ExitCode` maps the outcome to the process status.
  - axios's default status check rejects a reply whose status is outside 200-299. The catch block (raw_renew.js:66-68) then prints the request error, not the reply's message. The run ends in `RequestFailed(status)` for such a reply.

The login check (raw_renew.js:43) demands both status 200 and no `success: false`.
`Response.SameRule` states that login and renewal use one rule.

## Model

| member | source | states |
|---|---|---|
| Captcha.IsDigit | raw_renew.js:27 | `\d` is exactly the ten ASCII digits, and no digit is an operator |
| Captcha.IsSpace | raw_renew.js:27 | no `\s` character is a digit or an operator, so the classes of the pattern are disjoint |
| Captcha.RunLength | raw_renew.js:27 | a greedy `\d+` or `\s*` run starting at `i` stays in the text, holds only characters of its class, and stops at the end or at a character outside the class |
| Captcha.SpanShape | raw_renew.js:27 | any match starting at a position has as its first operand, gaps and operator exactly the greedy runs there, and a second operand no longer than the greedy digit run, so the pattern never backtracks |
| Captcha.PreferredWhenMaximal | raw_renew.js:27 | a match whose second operand cannot be extended agrees with every other match at its start and is the longest, i.e. it is the one a greedy backtracking engine reports |
| Captcha.MatchAt | raw_renew.js:27 | the attempt at position `i` returns a match starting at `i` whose second operand is maximal, and returns nothing exactly when no match starts at `i` |
| Captcha.MatchAtPreferred | raw_renew.js:27 | the match returned at a position is the preferred one among all matches there |
| Captcha.FindFrom | raw_renew.js:27 | searching from `i` returns the engine's match at the first start position from `i` where one exists, or nothing when none exists from `i` to the end |
| Captcha.Find | raw_renew.js:27 | `String.prototype.match`: the returned match is a match, no match starts earlier, and nothing is returned exactly when the text has no match |
| Captcha.StartsDigitRun | raw_renew.js:27 | the leftmost match starts at position 0 or right after a non-digit |
| Captcha.OperandsMaximal | raw_renew.js:27 | both operands of the reported match are whole digit runs: neither can be extended on either side |
| Captcha.DecimalValue | raw_renew.js:31 | `+n1` of a digit string is below 10 to the power of its length, and at least 10 to the power of its length minus one when it has no leading zero |
| Captcha.Eval | raw_renew.js:31 | the answer lies between minus the second operand and the sum of the operands, and is negative only for `-` with a smaller first operand |
| Captcha.Decimal | raw_renew.js:31 | the decimal numeral of `n` is a non-empty digit string whose value, read as `+n1` reads it, is `n` |
| Captcha.LeadingZero | raw_renew.js:31 | a leading zero does not change the value of a numeral |
| Captcha.Parse | raw_renew.js:27-30 | the operator is `+` or `-`, and nothing is returned exactly when the text has no match |
| Captcha.FindLeftmost | raw_renew.js:27 | a match whose second operand cannot be extended and before which no match starts is the one `match` reports |
| Captcha.ParseSpan | raw_renew.js:27-30 | for any such match, the parse is its capture groups: the first operand's digits as a number, the operator, the second operand's digits as a number |
| Captcha.SolveSpan | raw_renew.js:27-31 | for any such match, the answer is the sum of its operands for `+` and their difference for `-` |
| Captcha.ParseAfterNonDigits | raw_renew.js:27-30 | a match with an unextendable second operand after text with no digit parses to its digit strings' values and its operator |
| Captcha.Solve | raw_renew.js:27-31 | the answer is an error exactly when the text has no match, and otherwise the sum of the operands for `+` and their difference, which may be negative, for `-` |
| Captcha.LabelText | raw_renew.js:26 | a missing label reads as the empty text, a present one as its text |
| Captcha.EmptyLabelUnreadable | raw_renew.js:26-28 | a missing label, and so the empty text, yields the captcha error |
| Captcha.ParseLayout | raw_renew.js:27-30 | any text made of digit-free text, a digit string, whitespace, an operator, whitespace, a digit string, and text that is empty or does not start with a digit parses to those two values and that operator |
| Captcha.ParseRendered | raw_renew.js:27-30 | the label showing `a op b` with one space around the operator, after text with no digit and before text that does not start with a digit, parses back to `a`, `op`, `b` |
| Captcha.SolveRendered | raw_renew.js:27-31 | such a label is answered with `a + b` for `+` and `a - b` for `-` |
| Captcha.ExampleSurrounded | raw_renew.js:27 | "x 12 + 34 y" parses to 12 + 34: surrounding text is ignored |
| Captcha.ExampleLeftmost | raw_renew.js:27 | "1 2+3" parses to 2 + 3: the match is the leftmost one and the first operand is a whole digit run |
| Captcha.ExampleNegative | raw_renew.js:31 | "3 - 5" is answered with -2: subtraction is not clamped |
| Captcha.ExampleLeadingZeros | raw_renew.js:31 | "007+1" is answered with 8 |
| Captcha.ExampleLoginPage | raw_renew.js:26-31 | the label "7 + 2" is answered with 9 |
| Cookie.NameValue | raw_renew.js:48 | `entry.split(';')[0]` is a prefix of the entry without `;` that is the whole entry or stops just before a `;` |
| Cookie.NameValueUnique | raw_renew.js:48 | those three properties determine the piece: it is the longest `;`-free prefix |
| Cookie.NameValueCut | raw_renew.js:48 | an entry `p;attributes` with `p` free of `;` is cut to `p` |
| Cookie.Pieces | raw_renew.js:48 | the mapped list has one piece per entry, in order, each the entry's cut |
| Cookie.Join | raw_renew.js:48-49 | the joined header is empty exactly when there are no pieces or a single empty piece |
| Cookie.SplitJoin | raw_renew.js:48 | splitting a join of `;`-free pieces on `"; "` gives back exactly those pieces |
| Cookie.Header | raw_renew.js:48-49 | no cookie when `set-cookie` is absent, or when it is empty or holds one entry whose cut is empty; otherwise the header splits back into the entries' cuts |
| Cookie.HeaderPieces | raw_renew.js:48 | the header holds one piece per entry, in order, each the entry's prefix up to but excluding its first `;` |
| Cookie.SingleEntry | raw_renew.js:48-49 | a single non-empty entry without attributes is sent unchanged |
| Cookie.ExampleTwoEntries | raw_renew.js:48 | entries "a=1; Path=/" and "b=2" give the header "a=1; b=2" |
| Cookie.ExampleSessionCookie | raw_renew.js:48 | the entry "sid=1" gives the header "sid=1" |
| Cookie.NoCookie | raw_renew.js:48-49 | an absent `set-cookie` header and an empty list both yield no cookie |
| Response.SignalsFailure | raw_renew.js:43 | `data?.success === false` holds exactly when `success` is the boolean `false` |
| Response.LoginRejected | raw_renew.js:43 | a login is rejected whenever the status is outside 200-299, and is accepted only with status 200 and no boolean `false` in `success` |
| Response.RenewAccepted | raw_renew.js:59 | a renewal is accepted exactly when the status is 200 and `success` is absent, `true` or not a boolean, and so only for a delivered reply |
| Response.AcceptedCases | raw_renew.js:59 | a reply is accepted exactly when its status is 200 and `success` is absent, `true` or not a boolean |
| Response.SameRule | raw_renew.js:43-59 | a login is rejected exactly when a renewal with the same reply would not be accepted |
| Response.OrElse | raw_renew.js:44 | JavaScript's logical or on an optional string: a present non-empty value wins, otherwise the fallback |
| Response.FailureReason | raw_renew.js:44 | the reason is the non-empty `message`, else the status text; it is empty only when the status text is empty |
| Response.SuccessMessage | raw_renew.js:60 | the text logged after a renewal is the `message` when present, else the empty text |
| Renew.ExitCode | raw_renew.js:63-68 | the process exits with 0 exactly after a renewal and with 1 otherwise |
| Renew.Execute | raw_renew.js:18-69 | no request is sent exactly when the captcha is unreadable; the login carries the captcha answer; the renewal is sent exactly when the login is accepted and yields a cookie, and carries that cookie; the run ends renewed exactly when the renewal is accepted; a reply with a status outside 200-299 ends the run with that status; each other failure carries the reason the script prints |
| Renew.ExitZeroWhenAllStepsPass | raw_renew.js:18-69 | the exit status is 0 exactly when the label holds an expression, the login is accepted, a cookie is obtained and the renewal is accepted |
| Renew.ExampleRenewed | raw_renew.js:18-69 | with the label "7 + 2", an accepting login that sets "sid=1" and an accepting renewal, the run posts the answer 9, then the cookie "sid=1", logs "ok" and exits with 0 |

## Left out

- The HTTP calls (raw_renew.js:21, 34-41, 52-57) are network I/O through axios, and so are their headers and `withCredentials`. The server is a parameter of `Renew.Execute`: one function per endpoint.
- The HTML parse and `querySelector('label[for=math_captcha]')` (raw_renew.js:22-26) belong to the DOM library. The model starts from the label's text, or None when the label is missing.
- `process.env`, `console` output and `process.exit` (raw_renew.js:5-7, 60-68) are process plumbing. The outcome records what is printed, and `Renew.ExitCode` records the exit status.
- The async sequencing and the try/catch (raw_renew.js:18-69) only stop the run at the first error. `Renew.Execute` stops there too.
- Renew.Execute: a network or library exception caught by the catch block, with no reply at all, is not modelled: the endpoints always reply. The text of the error printed for a status outside 200-299 is axios's, so the outcome keeps only the status.
- Captcha.Solve: operands are unbounded naturals. JavaScript's `+n1` gives a double, which loses precision above 2^53, and that rounding is not modelled.
- Response.FailureReason: a `message` that is present but not a string is treated as absent. The script would print its string form when it is truthy.
- Strings are sequences of Unicode scalar values, whereas JavaScript strings are UTF-16 code units. Every character class here lies in the Basic Multilingual Plane, so the difference would only affect surrogate pairs, which no class matches.
- Multi-account relay, retries and chat notifications are not part of this model: `raw_renew.js` holds none of that logic.
