# ManageSieve client core, modelled in Dafny

This project models the client engine of a ManageSieve (RFC 5804) library: the
part that talks to a server which stores Sieve mail-filtering scripts. Sockets
are left out. The model covers five parts:

- **The wire parser.** It reads server replies from the text buffered so far:
  - quoted strings and `{n}` literals;
  - response codes;
  - `OK` / `NO` / `BYE` lines;
  - capability listings;
  - LISTSCRIPTS and GETSCRIPT bodies.

  Every parser is a total function over a string and a position. It returns
  `Incomplete`, `Success(value, next)` or `Failure(cut)`. `cut` tells a hard
  failure, which stops an alternative, from one that lets the next
  alternative be tried. This matches winnow's partial-input semantics:
  - a tag cut short by the end of the text is `Incomplete`;
  - a run of characters that reaches the end may still grow;
  - a literal waits for the number of characters it announced.
- **Validation and serialisation.**
  - The capability check (`verify_capabilities`) is a loop over nine optional
    locals and a map of unknown capabilities. It is proved equal to a
    reference fold over "slots".
  - The script-name rule of section 1.6 of RFC 5804.
  - The client command writers. There are two of them:
    - the current `SieveWriter` helpers, a chain of `write_all` calls that
      stops at the first failure;
    - the older internal `Command` rendering.
  - The `Display` renderers for response codes, extension items and response
    information. These are the imperative formatter loops with a `first` flag.
  - The SASL state helpers and the coroutine adapter.
- **The send/receive primitive.**
  - The stream is a class. It holds a byte log, a script of write, flush,
    close and handshake outcomes, and a queue of incoming deliveries.
  - `send_command` writes, flushes, and closes the stream on failure.
  - `next_response_inner` reads chunks of at most 1024 bytes. It decodes each
    chunk as UTF-8 on its own, appends it to the buffer, and re-parses the
    whole buffer, which must be consumed entirely.
  - `handle_bye` closes the stream on `BYE`.
- **The connection phase machine.**
  - A `Connection` class holds the stream, the capability snapshot, the TLS
    mode {NoTls, Tls} and the authentication mode {Unauthenticated,
    Authenticated}.
  - A `live` flag records whether the operation handed the connection back.
  - Each operation's phase requirement is a `requires` clause.
- **Per-operation classification.**
  - The operations are `connect`, `start_tls`, `authenticate`, `have_space`,
    `put_scripts`, `get_script`, `list_scripts`, `check_script` and `logout`.
  - Each one has a specification function over the stream state. It returns
    the result, the new stream state, and whether the connection comes back.
  - The class method is proved equal to that function.
  - The mapping from a reply to an outcome is a separate pure function with
    its own if-and-only-if contract.

Integers are unbounded in Dafny. The source's widths are written out as
explicit bounds:
- `u64` for numbers in replies and for the HAVESPACE size of the internal
  command;
- `u32` for the size the current writer sends;
- the `u32` byte length of a literal, as the `Small` precondition.

Text is `seq<char>`. Bytes are `seq<byte>` with an explicit UTF-8 encoder and
decoder.

### Behaviour kept as the code has it

- `put_scripts` takes no script. It sends `LISTSCRIPTS` and reads the whole
  reply as one `OK`, `NO` or `BYE` line (src/commands/put_script.rs:28-30).
  Only an empty listing is classified. A listing that names any script is a
  syntax error, and the connection is not handed back
  (`Connections.PutScriptsOnListing`). The model does the same; see
  "## Findings".
- Most operation files import modules that are not declared in the crate
  root: `crate::client` and `crate::internal`.
  - Their commands are sent through the current send/receive primitive.
  - Commands those files build through `Command` are written as one write of
    the rendered text.
  - `authenticate` (PLAIN with its initial response) and `get_script` use the
    current writers, because only those have the needed form.
  - Their replies are parsed with src/parser/responses.rs, through
    `next_response` and `handle_bye` of src/commands/mod.rs. They import
    `crate::internal::parser` instead, but the crate root declares only
    `mod parser`, so src/parser/responses.rs is the parser the crate builds.
    The older parser names the same reply parsers (`response_oknobye` and
    the others).
- The response-code parser requires the string of `SASL`, `REFERRAL` and
  `TAG` to follow the name at once. So `(TAG "x")`, with a blank, is rejected
  (`ParserCodes.TagSpacedFails`).
- Each read is decoded as UTF-8 on its own. A character whose bytes straddle
  two reads is therefore rejected, although the two reads together are valid
  (`Transport.SplitCharacterRejected`).
- `literal_s2c` counts characters, not bytes. The model counts characters too.

## Model

| member | source | states |
|---|---|---|
| SieveName.IsBadChar | src/sieve_name.rs:107-115 | a character is forbidden exactly when it is a control character (up to U+001F, or U+007F to U+009F) or U+2028 / U+2029; printable ASCII is never forbidden |
| SieveName.IsBadName | src/sieve_name.rs:103-105 | a name is bad exactly when one of its characters is forbidden; the empty name is legal |
| SieveName.New | src/sieve_name.rs:76-85 | `SieveNameStr::new` / `SieveNameString::new` succeed exactly when no character is forbidden, wrap the name unchanged, and otherwise fail with `SieveNameError` |
| SieveName.BadNameAppend | src/sieve_name.rs:103-105 | a concatenation is bad exactly when one of its parts is |
| InternalCommand.ToSieveName | src/internal/command.rs:81-87 | `IllegalScriptName` exactly when some character is forbidden; otherwise the text unchanged |
| InternalCommand.HaveSpaceCommand | src/internal/command.rs:44-46 | succeeds exactly when the name is legal, carrying the name and size |
| InternalCommand.PutScriptCommand | src/internal/command.rs:48-50 | succeeds exactly when the name is legal, whatever the script text |
| InternalCommand.SetActiveCommand | src/internal/command.rs:56-58 | succeeds exactly when the name is legal |
| InternalCommand.DeleteScriptCommand | src/internal/command.rs:60-62 | succeeds exactly when the name is legal |
| InternalCommand.RenameScriptCommand | src/internal/command.rs:64-66 | succeeds exactly when the (single) name is legal |
| InternalCommand.CheckScriptCommand | src/internal/command.rs:68-70 | succeeds exactly when its argument passes the name rule |
| InternalCommand.LitInjective | src/internal/command.rs:89-91 | a non-synchronising literal `{n+}` CRLF text is read back unambiguously, whatever follows it |
| InternalCommand.VerbsDistinct | src/internal/command.rs:93-116 | the rendered verbs are pairwise different |
| InternalCommand.VerbsUpper | src/internal/command.rs:93-116 | the verbs are capital letters only |
| InternalCommand.VerbOf | src/internal/command.rs:93-116 | two commands that render alike have the same verb |
| InternalCommand.RenderInjective | src/internal/command.rs:93-116 | `Display for Command` is injective: equal renderings mean equal commands |
| InternalCommand.HaveSpaceArguments | src/internal/command.rs:100-102 | the HAVESPACE arguments determine the name and the size |
| InternalCommand.PutScriptArguments | src/internal/command.rs:103-105 | the PUTSCRIPT arguments determine the name and the script |
| InternalCommand.OneName | src/internal/command.rs:107-110 | a single-literal argument determines the name |
| Literals.HeadInjective | src/commands/definitions.rs:27-37 | a literal head `{n}` CRLF is read back unambiguously: the number and what follows |
| Literals.LiteralInjective | src/commands/definitions.rs:27-37 | a literal (byte length, then the bytes) is read back unambiguously, whatever follows it |
| Literals.PrefixByLength | src/commands/definitions.rs:27-37 | of two texts starting the same string, equal UTF-8 length means the same text |
| Text.Decimal | src/commands/definitions.rs:39-43 | a number is written as non-empty decimal digits without a leading zero |
| Text.DecimalValue | src/commands/definitions.rs:39-43 | reading the digits back gives the number |
| Text.DecimalInjective | src/commands/definitions.rs:39-43 | distinct numbers are written differently |
| Text.Split | src/parser/responses.rs:184-194 | `split(' ')` gives at least one piece, none containing a blank |
| Text.JoinSplit | src/parser/responses.rs:184-194 | joining the pieces with single blanks gives the text back |
| Text.SplitJoin | src/parser/responses.rs:184-194 | splitting a join of blank-free pieces gives the pieces back |
| Text.LowerAll | src/parser/responses.rs:135-182 | ASCII case folding used for caseless tags keeps the length and folds each character |
| Utf8.DecodeEncode | src/commands/mod.rs:107-109 | `from_utf8` reads back what `as_bytes` wrote |
| Utf8.EncodeAppend | src/commands/definitions.rs:27-37 | the bytes of a concatenation are the concatenation of the bytes |
| Utf8.EncodeAscii | src/commands/definitions.rs:15-17 | ASCII text (the verbs) is written one byte per character, as its codes |
| Utf8.AsciiLength | src/commands/definitions.rs:27-37 | the byte length of ASCII text is its character count |
| Display.FmtItems | src/lib.rs:156-166 | the `first`-flag loop appends exactly the items' texts joined by single blanks |
| Display.FmtItem | src/lib.rs:179-199 | `ExtensionItem::fmt` appends the item's text: a string raw, a number in decimal, a list in parentheses with single blanks |
| Display.FmtCode | src/lib.rs:139-170 | `ResponseCode::fmt` appends exactly the code's text |
| Display.FmtInfo | src/lib.rs:207-220 | `ResponseInfo::fmt` appends `(code)` when there is a code, one blank only when both parts are there, then the human text |
| Display.InfoString | src/lib.rs:207-220 | `to_string` of a response information is its text |
| Display.CodeString | src/lib.rs:139-170 | `to_string` of a response code is its text |
| Display.SaslHidden | src/lib.rs:148 | every SASL code shows as `SASL ...`, whatever its payload |
| Display.ExtensionWithoutData | src/lib.rs:156-166 | an extension code without data shows as its name and one blank, the same as with an empty list |
| Display.NumberText | src/lib.rs:183 | a number item shows as decimal digits that read back as the number |
| Display.ItemsSplit | src/lib.rs:156-166 | for items that are single words, splitting the shown text at blanks gives each item's text back |
| Display.InfoEmpty | src/lib.rs:207-220 | the information shows nothing exactly when it has no code and no (or an empty) human text |
| Display.InfoBoth | src/lib.rs:207-220 | with both parts: `(code)`, one blank, then the human text |
| SaslStates.Response | src/sasl.rs:63-69 | `response()` is present exactly when `has_response`, and then is the state's data |
| SaslStates.ResponseOrFinished | src/sasl.rs:55-69 | every state has a response or is finished; only `CompleteWithFinalResponse` is both; only `Complete` has no response |
| SaslStates.FromCoroutine | src/sasl.rs:133-149 | a yield is `Yielded`, an error is passed on, a return is finished and carries its final response, if any |
| SaslStates.CoroutineRoundTrip | src/sasl.rs:133-149 | the coroutine adapter loses nothing: each coroutine state is recovered from its result |
| SaslStates.StepRoundTrip | src/sasl.rs:133-149 | every step result comes from a coroutine state: the adapter is a bijection |
| SaslStates.Resume | src/sasl.rs:85-94 | `resume` of a step function is that function's result; of a coroutine, the adapted coroutine state |
| SaslStates.NewFn | src/sasl.rs:100-106 | `new_fn` keeps name and initial state, and resuming calls the given function |
| SaslStates.NewInit | src/sasl.rs:119-127 | `new_init` starts complete with the initial response, and its step is never resumable |
| SaslStates.NewCoroutine | src/sasl.rs:151-163 | `new_coroutine` keeps name and initial state, and resuming runs the coroutine through the adapter |
| Parser.Propagate | src/parser/responses.rs:31-309 | an unsuccessful result is passed on with its kind and its cut unchanged |
| Parser.Literal | src/parser/responses.rs:135-182 | a tag that matches ends right after itself inside the input; a mismatch is never a cut |
| Parser.LiteralSpec | src/parser/responses.rs:135-182 | a tag succeeds exactly when it is all there and agrees (caselessly if asked), and is `Incomplete` exactly when the text ends inside an agreeing prefix |
| Parser.TakeWhile1 | src/parser/responses.rs:84-98 | `take_while(1..)`: success is a non-empty run followed by a character outside it; `Incomplete` exactly when the run reaches the end; failure exactly when the first character is outside |
| Parser.Space1 | src/parser/responses.rs:135-182 | `space1` consumes at least one blank and never cuts |
| Parser.Digit1 | src/parser/responses.rs:31-33 | `digit1` consumes a non-empty run of digits and never cuts |
| Parser.ParseU64 | src/parser/responses.rs:209-211 | `str::parse::<u64>`: digits within 64 bits give their value, more than 64 bits fail, empty text fails |
| Parser.Number | src/parser/responses.rs:48-56 | a number item consumes at least one character and fails without a cut |
| Parser.LiteralLength | src/parser/responses.rs:31-33 | `literal_s2c_len` consumes its head and fails without a cut |
| Parser.LiteralS2c | src/parser/responses.rs:36-38 | `literal_s2c` consumes at least its head and fails without a cut |
| Parser.Escaped | src/parser/responses.rs:84-98 | the body of a quoted string stops in front of a double quote |
| Parser.QuotedString | src/parser/responses.rs:84-98 | `quoted_string` consumes at least its opening quote and fails without a cut |
| Parser.SieveString | src/parser/responses.rs:40-42 | `sievestring_s2c` consumes input on success and fails without a cut |
| Parser.ExtensionItem | src/parser/responses.rs:48-56 | `extension_item` consumes input on success and fails without a cut |
| Parser.Parenthesised | src/parser/responses.rs:53 | a parenthesised list consumes input on success and fails without a cut |
| Parser.ExtensionData | src/parser/responses.rs:44-46 | `extension_data` yields at least one item |
| Parser.MoreItems | src/parser/responses.rs:44-46 | the rest of a separated list never moves backwards and fails without a cut |
| Parser.Atom | src/parser/responses.rs:58-82 | a named code without payload ends right after its name |
| Parser.KeyedCode | src/parser/responses.rs:58-82 | SASL, REFERRAL and TAG carry the string that follows them |
| Parser.Keyed | src/parser/responses.rs:58-82 | a keyed code consumes its name and at least one more character |
| Parser.NamedCode | src/parser/responses.rs:58-82 | a named alternative consumes at least its name |
| Parser.CodeFrom | src/parser/responses.rs:58-82 | the alternatives tried in order never move backwards and fail without a cut |
| Parser.ExtensionCode | src/parser/responses.rs:76-77 | an unknown code consumes input on success and fails without a cut |
| Parser.SpacedData | src/parser/responses.rs:76-77 | blanks then extension data consume input on success |
| Parser.CodeBody | src/parser/responses.rs:58-82 | the body of a code never moves backwards and fails without a cut |
| Parser.Code | src/parser/responses.rs:58-82 | `code` consumes input on success and fails without a cut |
| Parser.SpacedCode | src/parser/responses.rs:135-182 | blanks then a code consume input on success |
| Parser.SpacedString | src/parser/responses.rs:135-182 | blanks then a sieve-string consume input on success |
| Parser.ResponseTail | src/parser/responses.rs:135-182 | what follows a reply tag consumes input on success and fails without a cut |
| Parser.TagWord | src/parser/responses.rs:135-182 | a reply tag word ends right after itself and yields its tag |
| Parser.ReplyLine | src/parser/responses.rs:135-182 | a reply line's tag is the one its tag alternative read |
| Parser.ResponseOk | src/parser/responses.rs:135-149 | `response_ok` only ever yields an `OK` reply |
| Parser.ResponseNoBye | src/parser/responses.rs:151-165 | `response_nobye` never yields an `OK` reply |
| Parser.ResponseOkNoBye | src/parser/responses.rs:167-182 | `response_oknobye` consumes input on success and fails without a cut |
| Parser.SpaceSeparated | src/parser/responses.rs:184-194 | `""` gives no items; any other value gives pieces that join back to it |
| Parser.KeyValue | src/parser/responses.rs:227-257 | a key's value follows the key; an uncut failure means the key itself did not match |
| Parser.VersionValue | src/parser/responses.rs:213-225 | `version` consumes input on success and fails without a cut |
| Parser.VersionMinor | src/parser/responses.rs:213-225 | the part after the major number consumes input on success and fails without a cut |
| Parser.VersionCapability | src/parser/responses.rs:247-248 | the VERSION alternative consumes input on success |
| Parser.UnknownCapability | src/parser/responses.rs:251-252 | an unknown capability consumes input on success and fails without a cut |
| Parser.KeyName | src/parser/responses.rs:227-257 | every known capability name is written in double quotes |
| Parser.KnownCapability | src/parser/responses.rs:227-257 | a known capability alternative consumes input on success |
| Parser.CapabilityFrom | src/parser/responses.rs:227-257 | the capability alternatives tried in order consume input on success |
| Parser.CapabilityBody | src/parser/responses.rs:227-257 | the alternatives of `single_capability` consume input on success |
| Parser.SingleCapability | src/parser/responses.rs:227-257 | `single_capability` consumes input on success |
| Parser.CapabilityLines | src/parser/responses.rs:259-263 | the repeated capability lines never move backwards |
| Parser.ResponseCapability | src/parser/responses.rs:259-263 | `response_capability` consumes input on success |
| Parser.ResponseAuthenticate | src/parser/responses.rs:265-273 | `response_authenticate` consumes input on success |
| Parser.StringLine | src/parser/responses.rs:276-289 | a string and CRLF consume input on success and fail without a cut |
| Parser.ResponseGetScript | src/parser/responses.rs:276-289 | a script comes only with an `OK` line; a reply without a script is never `OK` |
| Parser.ScriptAndOk | src/parser/responses.rs:276-289 | the script alternative always ends with an `OK` line |
| Parser.ActiveMark | src/parser/responses.rs:292-309 | the ACTIVE mark never fails; marked means something was consumed, unmarked means nothing was |
| Parser.ScriptLine | src/parser/responses.rs:292-309 | one script line consumes input on success and fails without a cut |
| Parser.ScriptLines | src/parser/responses.rs:292-309 | the repeated script lines never move backwards and fail without a cut |
| Parser.ResponseListScripts | src/parser/responses.rs:292-309 | `response_listscripts` consumes input on success and fails without a cut |
| ParserStrings.LiteralRoundTrip | src/parser/responses.rs:31-38 | `{n}` CRLF and exactly `n` characters parse to those characters; `{0}` CRLF is `""` |
| ParserStrings.LiteralTextAt | src/parser/responses.rs:31-38 | the same, wherever in the buffer the literal starts |
| ParserStrings.LiteralLengthAt | src/parser/responses.rs:31-33 | the literal head reads back the number written |
| ParserStrings.LiteralPrefixIncomplete | src/parser/responses.rs:31-38 | every proper prefix of a literal is `Incomplete`, never a shorter string |
| ParserStrings.LiteralDigitsCut | src/parser/responses.rs:31-33 | a literal cut among its digits waits for more input |
| ParserStrings.LiteralHeadCut | src/parser/responses.rs:31-33 | a literal cut inside its CRLF (as `{3}` alone) waits for more input |
| ParserStrings.NumberAt | src/parser/responses.rs:31-33 | digits followed by a non-digit read back their number |
| ParserStrings.EscapedRoundTrip | src/parser/responses.rs:84-98 | the body parser reads back the text its escaping came from |
| ParserStrings.EscapedSound | src/parser/responses.rs:84-98 | whatever the body parser accepts is the escaping of what it returns: only `\\` and `\"` are decoded |
| ParserStrings.QuotedAt | src/parser/responses.rs:84-98 | a quoted string reads back its text wherever it starts |
| ParserStrings.QuotedRoundTrip | src/parser/responses.rs:84-98 | a quoted string parses to the text it was written from; `""` is the empty string |
| ParserStrings.QuotedSound | src/parser/responses.rs:84-98 | whatever `quoted_string` accepts is the quoting of what it returns |
| ParserStrings.QuotedBadEscape | src/parser/responses.rs:84-98 | any backslash pair other than `\\` and `\"` makes the quoted string fail |
| ParserStrings.EscapedBackslash | src/parser/responses.rs:84-98 | a backslash the body parser gets past is followed by `\` or `"` |
| ParserStrings.EscapedStep | src/parser/responses.rs:84-98 | the escaping of one character in front of the body reads as that character |
| ParserStrings.EscapedEnd | src/parser/responses.rs:84-98 | the body ends before the closing quote |
| ParserCodes.NamedAt | src/parser/responses.rs:58-82 | a code name spelled in any case reads as its code |
| ParserCodes.QuotaMaxScripts | src/parser/responses.rs:58-82 | `QUOTA/MAXSCRIPTS` is read as that variant, tried first |
| ParserCodes.QuotaMaxSize | src/parser/responses.rs:58-82 | `QUOTA/MAXSIZE` is read as that variant and not taken for a prefix of the other |
| ParserCodes.QuotaUnspecified | src/parser/responses.rs:58-82 | bare `QUOTA` not followed by `/` is the quota code without a variant, read only after both longer names failed |
| ParserCodes.QuotaSlashFails | src/parser/responses.rs:58-82 | `(QUOTA/)` is an error |
| ParserCodes.CodeUnclosed | src/parser/responses.rs:58-82 | a code body not followed by `)` makes the code fail |
| ParserCodes.KeyedAt | src/parser/responses.rs:58-82 | a keyed name followed at once by a quoted string reads as its code with that string |
| ParserCodes.KeyedSpaced | src/parser/responses.rs:58-82 | a keyed name followed by a blank fails |
| ParserCodes.SaslCodeAt | src/parser/responses.rs:58-82 | `SASL` with a string right after it is the SASL code with that string |
| ParserCodes.SaslSpacedFails | src/parser/responses.rs:58-82 | `SASL` followed by a blank is no code at all |
| ParserCodes.TagCodeAt | src/parser/responses.rs:58-82 | `TAG` with a string right after it is the TAG code with that string |
| ParserCodes.TagSpacedFails | src/parser/responses.rs:58-82 | `TAG` followed by a blank is no code at all |
| ParserCodes.AuthTooWeakAt | src/parser/responses.rs:62 | `AUTH-TOO-WEAK` in any case is read as its own code |
| ParserCodes.EncryptNeededAt | src/parser/responses.rs:63 | `ENCRYPT-NEEDED` in any case is read as its own code |
| ParserCodes.ReferralCodeAt | src/parser/responses.rs:68 | `REFERRAL` with a string right after it is the referral code with that string |
| ParserCodes.TransitionNeededAt | src/parser/responses.rs:69 | `TRANSITION-NEEDED` in any case is read as its own code |
| ParserCodes.TryLaterAt | src/parser/responses.rs:70 | `TRYLATER` is read as its own code, not taken for TRANSITION-NEEDED |
| ParserCodes.ActiveCodeAt | src/parser/responses.rs:71 | `ACTIVE` is read as its own code, past AUTH-TOO-WEAK |
| ParserCodes.NonexistentAt | src/parser/responses.rs:72 | `NONEXISTENT` in any case is read as its own code |
| ParserCodes.AlreadyExistsAt | src/parser/responses.rs:73 | `ALREADYEXISTS` is read as its own code, past AUTH-TOO-WEAK and ACTIVE |
| ParserCodes.WarningsCodeAt | src/parser/responses.rs:74 | `WARNINGS` in any case is read as its own code |
| ParserCodes.NamedCodeAt | src/parser/responses.rs:58-82 | every code of the table that carries no string, in any case and followed by `)` or a blank, is read as its own code |
| ParserReplies.CaselessAt | src/parser/responses.rs:135-182 | a word equal to a tag up to ASCII case matches it |
| ParserReplies.TagWords | src/parser/responses.rs:135-182 | on a word spelling a tag in any case, the tag alternatives yield that tag |
| ParserReplies.ReplyRoundTrip | src/parser/responses.rs:135-182 | a reply line without a code (tag in any case, optional quoted human text after a blank, CRLF) reads back as written |
| ParserReplies.ReplyWithCode | src/parser/responses.rs:135-182 | a reply line with a code reads back with that code and the human text |
| ParserReplies.ReplyWithBadCode | src/parser/responses.rs:135-182 | a code that fails makes the whole reply line fail |
| ParserReplies.TagOnlyIncomplete | src/parser/responses.rs:135-182 | a tag with nothing after it, as `ok`, is `Incomplete` |
| ParserReplies.ReplyBadStart | src/parser/responses.rs:135-182 | a reply line starting with a blank, as ` ok`, is an error |
| ParserReplies.TailHuman | src/parser/responses.rs:135-182 | a tail without a code reads back its human text and ends after CRLF |
| ParserReplies.TailCode | src/parser/responses.rs:135-182 | a tail with a code reads back the code and the human text |
| ParserReplies.TailBadCode | src/parser/responses.rs:135-182 | a code that fails is not skipped |
| ParserReplies.CodeNeedsParen | src/parser/responses.rs:58-82 | a response code must open with `(` |
| ParserReplies.UnknownQuotedCode | src/parser/responses.rs:76-77 | an unknown code whose name is a quoted string is kept as an extension code without data |
| ParserReplies.UnknownCodeWithData | src/parser/responses.rs:44-56 | an unknown code with one string of data keeps that data as a one-item list |
| ParserReplies.ExtensionOneString | src/parser/responses.rs:76-77 | an extension name with one string of data after a blank reads as that code |
| ParserReplies.ExtensionNoData | src/parser/responses.rs:76-77 | an extension name followed by no blank has no data |
| ParserReplies.OneStringData | src/parser/responses.rs:44-46 | a blank and one string, then no blank, is data of one item |
| ParserReplies.NoMoreItems | src/parser/responses.rs:44-46 | a list of items ends where no blank follows |
| ParserReplies.StringItem | src/parser/responses.rs:48-56 | a quoted string is a string item |
| ParserReplies.NumberItem | src/parser/responses.rs:48-56 | decimal digits followed by a non-digit are a number item with that value |
| ParserReplies.NestedItem | src/parser/responses.rs:48-56 | a string in parentheses is a nested list holding that one string item |
| ParserReplies.BareUnknownCode | src/parser/responses.rs:58-82 | a code starting with no known name and not a string is rejected |
| ParserCapabilities.KeyedCapability | src/parser/responses.rs:227-257 | a string-valued capability, a blank and a quoted value reads as that capability; a value it rejects is a hard error |
| ParserCapabilities.KeyWithoutValue | src/parser/responses.rs:227-257 | a known name other than STARTTLS with no blank after it is a hard error |
| ParserCapabilities.StartTlsCapability | src/parser/responses.rs:244 | `"STARTTLS"` in any case is the STARTTLS capability |
| ParserCapabilities.KeyValueNoBlank | src/parser/responses.rs:227-257 | a matched name not followed by a blank is a hard error |
| ParserCapabilities.KeyPlace | src/parser/responses.rs:227-257 | a word spelling a known name is read by that name's alternative |
| ParserCapabilities.VersionAt | src/parser/responses.rs:213-225 | a written `"major.minor"` reads back as that version |
| ParserCapabilities.VersionCapabilityAt | src/parser/responses.rs:247-248 | `"VERSION"`, a blank and a written version is the VERSION capability |
| ParserCapabilities.VersionUnquoted | src/parser/responses.rs:247-248 | `"VERSION"` and a blank followed by anything but a quote is a hard error |
| ParserCapabilities.UnknownWithValue | src/parser/responses.rs:251-252 | an unknown name, a blank and a quoted value is kept with that value |
| ParserCapabilities.UnknownAlone | src/parser/responses.rs:251-252 | an unknown name with no blank after it is kept without a value |
| ParserCapabilities.LinesCons | src/parser/responses.rs:259-263 | capability lines are collected in the order they come |
| ParserCapabilities.LinesEnd | src/parser/responses.rs:259-263 | a line starting with neither a quote nor a literal ends the capability lines |
| ParserCapabilities.CutLineFails | src/parser/responses.rs:259-263 | a hard error in any line is an error for the whole response |
| ParserCapabilities.SaslEmpty | src/parser/responses.rs:184-194 | `"SASL" ""` announces no mechanisms |
| ParserCapabilities.NotifyEmptyFails | src/parser/responses.rs:196-207 | `"NOTIFY" ""` makes the whole capability response an error |
| ParserScripts.ActiveAt | src/parser/responses.rs:292-309 | a blank and ACTIVE in any case mark the active script |
| ParserScripts.NotActive | src/parser/responses.rs:292-309 | without a blank there is no mark |
| ParserScripts.OtherWord | src/parser/responses.rs:292-309 | after a legal name, a blank and another word is no mark, and the script line then fails at the blank where CRLF is required |
| ParserScripts.BadNameLine | src/parser/responses.rs:292-309 | a line naming an illegal script is rejected |
| ParserScripts.BadNameListing | src/parser/responses.rs:292-309 | a listing whose first line names an illegal script is an error |
| ParserScripts.ListingEnd | src/parser/responses.rs:292-309 | a line starting with neither a quote nor a literal ends the listing |
| ParserScripts.ScriptLineAt | src/parser/responses.rs:292-309 | a written script line reads back as its name and mark |
| ParserScripts.ListingRead | src/parser/responses.rs:292-309 | a written listing reads back as the same names, marks and order |
| ParserScripts.ScriptThenOk | src/parser/responses.rs:276-289 | a script followed by an OK line is the script, whatever the OK line holds |
| ParserScripts.ScriptThenOther | src/parser/responses.rs:276-289 | a script followed by a line not starting with `O`, such as BYE, is an error |
| CapabilitiesCheck.TrySet | src/capabilities.rs:47-55 | `try_set` fails exactly when the field is already set, with `DuplicateCapability(name)`, and otherwise sets it |
| CapabilitiesCheck.TakeLine | src/capabilities.rs:57-89 | one loop iteration sets its local or reports the duplicate, as the step function says |
| CapabilitiesCheck.VerifyCapabilities | src/capabilities.rs:32-107 | the loop with nine locals, a map and an early return computes the reference check over slots |
| CapabilitiesCheck.VerifyIsReference | src/capabilities.rs:32-107 | the locals-based check equals the slot-based reference on every list of lines |
| CapabilitiesCheck.Fold | src/capabilities.rs:57-89 | the fold only fails with `DuplicateCapability` and only adds slots |
| CapabilitiesCheck.Others | src/capabilities.rs:68-86 | unknown capabilities are kept by their exact name with their value |
| CapabilitiesCheck.FirstDuplicate | src/capabilities.rs:57-89 | the first line that repeats a slot is reported by that slot's name |
| CapabilitiesCheck.DuplicateIff | src/capabilities.rs:57-89 | a duplicate is reported exactly when two lines fill the same slot |
| CapabilitiesCheck.NoDuplicate | src/capabilities.rs:90-106 | without repeats, the result is built from all the lines gathered |
| CapabilitiesCheck.MissingOrder | src/capabilities.rs:90-106 | without duplicates: missing IMPLEMENTATION, then SIEVE, then VERSION is reported, in that priority; success exactly when all three are there |
| CapabilitiesCheck.Announced | src/capabilities.rs:90-106 | on success every announced value is in its field |
| CapabilitiesCheck.NotAnnounced | src/capabilities.rs:90-106 | on success what was not announced has its default: no SASL mechanisms, STARTTLS off, optional fields empty, no unknown entry |
| CapabilitiesCheck.GatheredKeys | src/capabilities.rs:57-89 | the slots gathered are exactly the slots some line fills |
| CapabilitiesCheck.GatheredValues | src/capabilities.rs:57-89 | without repeats each slot holds the one line that filled it |
| CapabilitiesCheck.OrderFree | src/capabilities.rs:57-102 | reordering duplicate-free lines does not change the result |
| Writers.WriteVerb | src/commands/definitions.rs:15-17 | `literal` writes the verb's bytes, or fails with the stream's error and writes nothing |
| Writers.WriteSpace | src/commands/definitions.rs:19-21 | `space` writes one blank |
| Writers.WriteCrlf | src/commands/definitions.rs:23-25 | `crlf` writes CR LF |
| Writers.WriteStr | src/commands/definitions.rs:27-37 | `string` writes `{`, the byte length, `}`, CRLF and the bytes, stopping at the first failing write |
| Writers.WriteNumber | src/commands/definitions.rs:39-43 | `number` writes the decimal digits of a `u32` |
| Writers.WriteAuthenticate | src/commands/definitions.rs:56-71 | AUTHENTICATE, the mechanism, the data only when there is some, CRLF; the writes stop at the first failure |
| Writers.WriteSaslString | src/commands/definitions.rs:73-81 | a SASL continuation is one literal and CRLF |
| Writers.WriteStartTls | src/commands/definitions.rs:83-89 | the bare verb and CRLF |
| Writers.WriteLogout | src/commands/definitions.rs:91-97 | the bare verb and CRLF |
| Writers.WriteCapability | src/commands/definitions.rs:99-105 | the bare verb and CRLF |
| Writers.WriteHaveSpace | src/commands/definitions.rs:107-120 | the verb, the name as a literal, the size in decimal, CRLF |
| Writers.WritePutScript | src/commands/definitions.rs:122-135 | the verb, the name and the script as literals, CRLF |
| Writers.WriteListScripts | src/commands/definitions.rs:137-143 | the bare verb and CRLF |
| Writers.WriteSetActive | src/commands/definitions.rs:145-155 | the verb, one literal, CRLF |
| Writers.WriteGetScript | src/commands/definitions.rs:157-167 | the verb, one literal, CRLF |
| Writers.WriteDeleteScript | src/commands/definitions.rs:169-179 | the verb, one literal, CRLF |
| Writers.WriteRenameScript | src/commands/definitions.rs:181-194 | the verb, the old and the new name as literals, CRLF |
| Writers.WriteCheckScript | src/commands/definitions.rs:196-206 | the verb, the script as a literal, CRLF |
| Writers.WriteNoop | src/commands/definitions.rs:208-214 | the bare verb and CRLF |
| Writers.WriteUnauthenticate | src/commands/definitions.rs:216-222 | the bare verb and CRLF |
| Writers.WriteRequest | src/commands/definitions.rs:56-222 | any command writer leaves the stream as running its writes in order, stopping at the first failure |
| Writers.AfterFirstFault | src/commands/definitions.rs:60-70 | the first failing write gives the command its error: everything before it is in the log, nothing after it |
| Writers.FirstFault | src/commands/definitions.rs:60-70 | the first failing step: all before it succeed, and it fails |
| Writers.WritesText | src/commands/definitions.rs:56-222 | a command that no write fails leaves exactly the UTF-8 bytes of its text in the log |
| Writers.CommandTextInjective | src/commands/definitions.rs:56-222 | different requests are never written alike |
| Writers.OneLiteral | src/commands/definitions.rs:145-179 | a single literal argument is read back |
| Writers.TwoLiterals | src/commands/definitions.rs:122-135 | two literal arguments are read back |
| Writers.LiteralNumber | src/commands/definitions.rs:107-120 | the HAVESPACE name and size are read back |
| Writers.AuthenticateArguments | src/commands/definitions.rs:56-71 | the AUTHENTICATE mechanism and whether and which data was sent are read back |
| Streams.Stream.WriteAll | src/commands/mod.rs:44-45 | `write_all` appends the bytes unless the write fails; nothing else changes |
| Streams.Stream.Flush | src/commands/mod.rs:46 | `flush` sends what was written unless it fails |
| Streams.Stream.Close | src/commands/mod.rs:52 | `close` shuts the stream, whether or not it reports an error |
| Streams.Stream.Handshake | src/commands/start_tls.rs:47 | the handshake encrypts the stream when it succeeds |
| Streams.Stream.Read | src/commands/mod.rs:100-101 | a read takes at most 1024 bytes from what is waiting |
| Streams.Take | src/commands/mod.rs:100-101 | a read returns at most 1024 bytes, and a non-empty read makes progress |
| Streams.CloseStep | src/commands/mod.rs:52 | closing shuts the stream and changes nothing else |
| Streams.HandshakeStep | src/commands/start_tls.rs:47 | encrypted afterwards exactly when it was before or the handshake succeeded |
| Transport.PayloadText | src/commands/mod.rs:44-45 | the writes of a command spell its text |
| Transport.AfterClose | src/commands/mod.rs:51-53 | an error of the close replaces the error being reported |
| Transport.SendStep | src/commands/mod.rs:39-57 | success writes exactly the command and flushes; any outcome writes a prefix of the command |
| Transport.SendCommand | src/commands/mod.rs:39-57 | `send_command` does what the send function says |
| Transport.SendOutcome | src/commands/mod.rs:39-57 | the writes and the flush succeed exactly when none of their steps fails; otherwise the stream is closed and the first error, or the close's, is reported |
| Transport.SendLogPrefix | src/commands/mod.rs:39-57 | whatever happens, the log gains a prefix of the command's bytes and nothing else |
| Transport.Whole | src/commands/mod.rs:112 | `terminated(parser, eof)`: success only when the whole buffer is read |
| Transport.Receive | src/commands/mod.rs:92-122 | the buffer only grows; a value is returned only when the parser reads the whole buffer; a syntax error only when it fails or leaves text unread |
| Transport.NextResponseInner | src/commands/mod.rs:92-122 | the read loop computes the receive function and touches nothing but the incoming queue |
| Transport.ReadStep | src/commands/mod.rs:80-90 | an error closes the stream; success leaves it as it was |
| Transport.NextResponse | src/commands/mod.rs:80-90 | `next_response` does what the read step says |
| Transport.ByeOutcome | src/commands/mod.rs:60-78 | `BYE` is an error carrying its information (or the close's error); `OK` and `NO` pass unchanged |
| Transport.ByeStep | src/commands/mod.rs:60-78 | `BYE` closes the stream; `OK` and `NO` leave it as it was |
| Transport.HandleBye | src/commands/mod.rs:60-78 | `handle_bye` closes the stream exactly on `BYE` and hands other replies on unchanged |
| Transport.ReceiveOne | src/commands/mod.rs:92-122 | a reply arriving in one read is returned as parsed |
| Transport.ReceiveTwo | src/commands/mod.rs:92-122 | an incomplete first read is parsed again with the second appended |
| Transport.ReceiveEnd | src/commands/mod.rs:103-105 | the server closing before a whole reply is `UnexpectedEof` |
| Transport.CleanSend | src/commands/mod.rs:39-57 | with no failing step, a command adds exactly its text to the log and flushes it |
| Transport.ReadOne | src/commands/mod.rs:80-122 | a whole reply in the only read left is returned and the stream stays as it was |
| Transport.ReadSyntax | src/commands/mod.rs:80-122 | text the parser rejects is `Syntax`, and the stream is closed |
| Transport.SplitCharacterRejected | src/commands/mod.rs:107-109 | a character split across two reads is rejected as `InvalidData` |
| Connections.AuthCode | src/commands/authenticate.rs:63-77 | the code of a refused login: nothing is lost, and `Other` holds exactly the codes other than AUTH-TOO-WEAK, ENCRYPT-NEEDED and TRANSITION-NEEDED |
| Connections.ClassifyHaveSpace | src/commands/have_space.rs:49-60 | `OK` is room; `NO` with a QUOTA code is that limit and the text; any other `NO` is `UnexpectedNo` |
| Connections.Warnings | src/commands/check_script.rs:26-32 | warnings exactly when the code is WARNINGS and there is text |
| Connections.ClassifyPutScript | src/commands/put_script.rs:33-50 | `OK` with its warnings; `NO` without a code is an invalid script; `NO` with QUOTA is a quota error; other codes are kept |
| Connections.ClassifyGetScript | src/commands/get_script.rs:33-41 | NONEXISTENT exactly when the code says so; otherwise the code and text are kept |
| Connections.ClassifyCheckScript | src/commands/check_script.rs:24-42 | `OK` with its warnings; `NO` is an invalid script with the text as the error |
| Connections.ExchangeStep | src/commands/mod.rs:39-122 | a command sent and its reply read: on success exactly the command is written |
| Connections.ConverseStep | src/commands/mod.rs:39-122 | as above, with `BYE` turned into an error |
| Connections.ConnectSpec | src/commands/connect.rs:23-37 | nothing is written; the connection comes back exactly when the result is `Ok` |
| Connections.UpgradedSpec | src/commands/start_tls.rs:49-60 | the capabilities read again after the handshake, without writing |
| Connections.StartTlsSpec | src/commands/start_tls.rs:31-61 | unsupported STARTTLS is refused before anything is written; success means encrypted and exactly STARTTLS written |
| Connections.RefreshSpec | src/commands/authenticate.rs:79-88 | the CAPABILITY exchange after a login: success writes exactly CAPABILITY |
| Connections.PlainLogin | src/commands/authenticate.rs:55-57 | the AUTHENTICATE PLAIN command with the initial response can be sent |
| Connections.LoginSpec | src/commands/authenticate.rs:55-94 | success writes exactly AUTHENTICATE PLAIN and CAPABILITY |
| Connections.AuthenticateSpec | src/commands/authenticate.rs:45-95 | without PLAIN offered it is refused before anything is written; otherwise it is the login |
| Connections.HaveSpaceSpec | src/commands/have_space.rs:30-63 | an illegal name is refused, with the connection, before anything is written; otherwise success writes exactly HAVESPACE |
| Connections.PutScriptsSpec | src/commands/put_script.rs:27-53 | the connection comes back exactly when the result is `Ok` |
| Connections.PutScriptsOnListing | src/commands/put_script.rs:28-31 | as written, a listing whose first line starts with a quoted name is `Err(Syntax)` and the connection is not handed back |
| Connections.PutScriptSpec | src/commands/put_script.rs:27-53 | the PUTSCRIPT the outcomes are written for: an illegal name is refused, with the connection, before anything is written; otherwise success writes exactly PUTSCRIPT with the name and the script |
| Connections.PutScriptReplied | src/commands/put_script.rs:33-52 | with a legal name and a one-line OK or NO reply, PUTSCRIPT is written, the connection comes back and the reply is classified |
| Connections.GetScriptSpec | src/commands/get_script.rs:26-46 | the connection comes back exactly when the result is `Ok`, with exactly GETSCRIPT written |
| Connections.ListScriptsSpec | src/commands/list_scripts.rs:21-37 | the connection comes back on success and on `NO`, with exactly LISTSCRIPTS written |
| Connections.CheckScriptSpec | src/commands/check_script.rs:16-45 | the connection comes back exactly when the result is `Ok`, with exactly CHECKSCRIPT written |
| Connections.LogoutSpec | src/commands/logout.rs:12-25 | the connection never comes back; `Ok` means LOGOUT was written and the stream closed |
| Connections.Exchange | src/commands/mod.rs:39-122 | sending and reading do what the exchange step says |
| Connections.Converse | src/commands/mod.rs:39-122 | sending, reading and `handle_bye` do what the converse step says |
| Connections.Connect | src/commands/connect.rs:23-37 | `connect` does what its specification says and builds a valid connection |
| Connections.ReadUpgraded | src/commands/start_tls.rs:49-60 | the capability read after the handshake does what its specification says |
| Connections.Refresh | src/commands/authenticate.rs:79-88 | the capability exchange does what its specification says |
| Connections.Login | src/commands/authenticate.rs:55-94 | the login does what its specification says |
| Connections.Connection.constructor | src/commands/connect.rs:29-33 | a new connection is plain and unauthenticated, on the given stream and capabilities |
| Connections.Connection.GetCapabilities | src/lib.rs:81-83 | `capabilities()` is the stored snapshot, without I/O |
| Connections.Connection.StartTls | src/commands/start_tls.rs:31-61 | from NoTls/Unauthenticated only; `Ok` moves to Tls with the new snapshot; an error leaves the phase and snapshot |
| Connections.Connection.Authenticate | src/commands/authenticate.rs:45-95 | from Unauthenticated only; `Ok` moves to Authenticated with the new snapshot; the TLS mode is kept |
| Connections.Connection.HaveSpace | src/commands/have_space.rs:30-63 | Authenticated only; the outcome and stream are the specification's; the phase is kept |
| Connections.Connection.PutScripts | src/commands/put_script.rs:27-53 | Authenticated only; the outcome and stream are the specification's |
| Connections.Connection.PutScript | src/commands/put_script.rs:27-53 | Authenticated only; the outcome and stream are those of the corrected PUTSCRIPT specification; the phase is kept |
| Connections.Connection.GetScript | src/commands/get_script.rs:26-46 | Authenticated only; the outcome and stream are the specification's |
| Connections.Connection.ListScripts | src/commands/list_scripts.rs:21-37 | Authenticated only; the outcome and stream are the specification's |
| Connections.Connection.CheckScript | src/commands/check_script.rs:16-45 | Authenticated only; the outcome and stream are the specification's |
| Connections.Connection.Logout | src/commands/logout.rs:12-25 | in any phase; the connection is consumed whatever happens |

## Left out

- TLS configuration (rustls, webpki roots, the server name). The handshake is one opaque step that upgrades the stream or fails with an I/O error.
- The async machinery: futures, `poll_fn`, `Pin`, `ready!`. The read loop is a sequential loop over a queue of deliveries. A pending read is not modelled.
- The `tracing` logging calls, including the warning logged for a syntax error and the NO code `check_script` only logs.
- SASL mechanism internals: the pin projection, the nightly `Coroutine` trait and the external `sasl` crate's `Plain`. A step is a function parameter, and PLAIN's initial response is a parameter of `authenticate`. The shown code has no multi-round challenge loop.
- `src/client.rs` (an older copy of the send/receive loop), `src/internal/parser.rs` (a superseded parser) and `src/internal/response.rs` (commented out) are not part of this model. The CLI and the demo are not part of this model either.
- Round trips between the writers and the parser. The writers emit client-to-server literals that count bytes. The parser reads server-to-client forms and counts characters.
- Formatter errors. Writing into a string never fails, so `Display.Formatter.Write` always succeeds.
- `write_all` is all-or-nothing in the model: a failed write adds nothing to the log. A partial write before an error is not modelled.
- Writers.WriteStr: a text longer than `u32::MAX` bytes makes the source panic (`try_into().unwrap()`). The model states this as the precondition `Small` rather than modelling the panic. The same precondition is on every writer and operation that sends a text through `WriteStr`: WriteAuthenticate, WriteSaslString, WriteHaveSpace, WritePutScript, WriteSetActive, WriteGetScript, WriteDeleteScript, WriteRenameScript, WriteCheckScript, LoginSpec, AuthenticateSpec, GetScriptSpec, CheckScriptSpec and Login.
- Writers.WriteRequest: the same `u32` length panic is the precondition `Fits`.
- Connections.Connection.Authenticate: the initial response must be `Small`, for the same reason.
- Connections.Connection.GetScript: the name must be `Small`, for the same reason.
- Connections.Connection.CheckScript: the script must be `Small`, for the same reason.
- Connections.LoginSpec: the capabilities re-read after a login are unwrapped in the source, so invalid ones panic. The model reports this as the failure `Panicked`.
- Connections.Connection.StartTls: which stream type the connection holds after the upgrade is a type-level fact in the source. Here it is the `tls` field and the stream's `encrypted` flag.
- The parser functions' own contracts state progress and cut behaviour only. What each parser reads is stated by the `ParserStrings`, `ParserCodes`, `ParserReplies`, `ParserCapabilities` and `ParserScripts` lemmas on concrete shapes of input. No general inverse covers every input.
- Streams.Stream.Read: how the server splits its bytes into reads is given by the delivery queue. Scheduling and timeouts are not modelled.
- The unused `Command::authenticate` of the internal command set renders a bare AUTHENTICATE verb. It is modelled, but no operation sends it.

## Findings

| source | as written | input that shows it | evidently intended | confidence | as-written member | corrected member |
|---|---|---|---|---|---|---|
| src/commands/put_script.rs:27-31 | `put_scripts` sends LISTSCRIPTS and parses the reply with `response_oknobye`, which must read the whole reply as one final line | any server that stores a script: the reply `"a" ACTIVE` CRLF `OK` CRLF makes the first line start with `"`, which gives `Err(Syntax)`, and the connection is lost | send PUTSCRIPT with a name and a script, and classify its OK or NO line, as the `PutScript` outcomes (`InvalidScript`, `Quota`) describe | high, not executed | Connections.PutScriptsOnListing | Connections.PutScriptReplied |
