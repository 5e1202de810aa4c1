# Verified model of the Markdown engine and the configuration parser

This project models the parts of the repository where the result of a call is far from what one line
of code says: the Markdown engine in `cpp_markdown/` and the nginx-style configuration parser in
`src/config_parser.cc`. `dafny verify dfyconfig.toml` checks all of it.

Where the program loops over a stream or a list, or changes objects, the model has a method with the
same loop or a class with the same fields, and the method is proved to compute a function. What the
program is for is then proved about that function, for every input.

## The parts

**Emphasis** (`EmphasisSpec`, `EmphasisTermination`, `EmphasisNesting`, `EmphasisLaws`,
`EmphasisExamples`, `Emphasis`). The list of text and marker tokens goes through a matching pass,
which splits markers of size 3 in the list it walks, and a pass with a stack, which unlinks badly
nested pairs. `EmphasisSpec` has the matching pass as a transition system, `EmphasisTermination`
says when it ends, and `EmphasisNesting` has the stack pass; `Emphasis` has the markers as objects
that point at each other, and proves that the program's loops run those systems. `EmphasisLaws` says
in terms of characters, sizes and literal tags what comes out. Main results: the matching pass ends
if and only if it never splits a triple against a triple of the other character; pairs are of one
character and size, openers are served from left to right with the first closer that will do, and no
two markers that could be paired are left alone; the stack pass keeps exactly the pairs that no
other pair crosses and never looks at an empty stack; the tags written are balanced, and are those
that the size of each pair asks for; no character of the text is lost.

**Configuration** (`ConfigSpec`, `ConfigLexing`, `ConfigGrammar`, `ConfigRoundTrip`, `ConfigTree`,
`ConfigExact`, `ConfigParser`). `ConfigSpec` has the printed form, the tokenizer and the tree
builder as functions; `ConfigParser` has the program's loops over a stream and its tree of objects.
`ConfigLexing` says for each kind of token, comments included, what text it is read from, and
`ConfigGrammar` which token streams are accepted. Main results: a token survives printing and
reading if and only if it is stable; a configuration survives if and only if it is not empty and
made of stable tokens; and the outcome of a parse is decided exactly by the kinds of tokens read,
with a tree that spells those tokens.

**Blocks** (`BlockLines`, `BlockExpressions`, `Blocks`, `BlockKinds`, `BlockProofs`, `BlockText`,
`BlockLists`, `QuoteLayout`, `ListLayout`, `ListStarts`, `BlockLayout`, `ListTrouble`,
`BlockTrouble`, `BlockDriver`, `LineMarks`, `LineText`, `BlockConservation`, `BlockTotality`,
`BlockExamples`, `BlockParser`). `BlockLines` has what the regular expressions match, which
`BlockExpressions` proves against lines spelled out as spaces, marks and text, and `LineMarks` what
each kind of block takes off the front of its lines. `Blocks` has the parsers as functions on
positions; a failed assertion, or a read past the end, is the outcome `Undefined`. `BlockParser` has
the program's loops with their iterator. Main results: every block of the driver has the kind that
its first lines tell, and holds of each of its lines exactly what its kind keeps, blank lines
included (`BlockLayout`); the items of a list start exactly at the lines with its marker, and its
paragraph mode is decided by what stands behind its blank lines (`ListStarts`); quotes and lists
hold fewer characters than their lines, so the recursive driver ends on all inputs; lists and
sub-lists are indented as they should be; the list parser, and the whole block pass at all depths,
fail exactly at certain lines; a line is lost exactly if it breaks off the block in front of it; and
the blocks of a document, at all depths, say what its lines say if and only if no such line says
anything. What a line says is its text without what blocks take off its front, heading hashes, and
spaces; blank lines, comments, lines of rule marks or equals signs, and bare item markers say
nothing. Numbers, dates and emphasis are text.

**Texts** (`Lines`, `LineReader`, `Entities`, `EntityReferences`, `EncodingStability`,
`EncodingLoss`, `EmailEncoding`, `Placeholders`, `PlaceholderTexts`, `Escapes`, `CodeSpans`).
Reading lines with tabs, encoding for HTML, hiding e-mail addresses, and the placeholders that stand
for what has been recognized in a paragraph. Main results: reading in two parts composes, with the
exact condition; encoding can be undone, flag by flag and text by text, and is stable, under exact
conditions; a hidden address passes the encoder and decodes to itself; both readers of placeholders
agree on every text, no index is ever out of range, and restoring undoes escaping and code spans,
with the one exception named below.

`Streams`, `Options`, `Sequences` and `Numbers` are shared.

## Where the code and its documentation part

- `***a___` never ends (`EmphasisTermination.MixedTriplesNeverFinish`): the split leaves a marker of
  size 0 and one of size 3, over and over.
- The parser accepts `a; }`, whose closing brace too many is not noticed
  (`ConfigExact.ExtraBraceIsAccepted`); after it, another brace or token uses an empty stack
  (`ConfigExact.TwoExtraBracesAreUndefined`). Blocks still open at the end of the file are accepted
  (`ConfigTree.OutcomeExactly`), and a plain token there is dropped
  (`ConfigExact.LastTokenIsDropped`).
- A quoted token with two backslashes in a row, or with its own quote in it, is printed and read
  back as something else (`ConfigRoundTrip.TokenSurvivesExactly`,
  `ConfigExact.DoubleBackslashIsHalved`); an empty configuration is printed as an empty file, which
  is rejected (`ConfigRoundTrip.RoundTrip`).
- A line that breaks off a code block, a quote or a list is lost (`BlockDriver.LostExactly`): the
  parser leaves the iterator behind the block and the loop increments it again. So text after code,
  text after a quote, and a `+` line after a list of stars disappear
  (`BlockExamples.TextAfterCodeIsLost`, `TextAfterQuoteIsLost`, `ItemAfterOtherListIsLost`).
- `* a` followed by `  * *b*` fails an assertion (`ListTrouble.EmphasisInSublistFails`); a code
  block in a list item with a blank line at the end reads past the end of the lines
  (`ListTrouble.BlankAfterNestedCodeFails`); and a quote in front of a sub-list asks a list for its
  text (`BlockExamples.QuoteBeforeSublistFails`). `BlockTrouble.DriverFailsExactly` says on which lines
  the block pass fails.
- Encoding treats an ampersand by a search of all the text behind it: the first alternative of the
  expression alone is anchored, and at every line start (`EncodingStability.StableExactly`,
  `EncodingStability.BracketIsNotStable`).
- In ordinary text an ampersand that the encoder keeps, and that starts a reference, reads as what the
  reference stands for (`EncodingLoss.TextDecodesBackExactly`).
- A code span in double backquotes is restored with single ones (`CodeSpans.SpansAndEscapesExactly`).

## Model

| member | source | states |
|---|---|---|
| EmphasisSpec.StepKeepsInv | cpp_markdown/markdown-tokens.cpp:509-560 | every step of the matching pass, from any state that satisfies the invariant, keeps it: links are mutual and of one kind with the opener first, ids are fresh, and what has been searched is settled |
| EmphasisSpec.StepKeepsLiteral | cpp_markdown/markdown-tokens.cpp:519-555 | matches and splits leave the text of the whole list, markers read as their characters, unchanged |
| EmphasisSpec.RunKeepsInv | cpp_markdown/markdown-tokens.cpp:509-560 | both of the above after any number of steps from tokens as the tokenizer leaves them |
| EmphasisSpec.RunKeepsFirstFit | cpp_markdown/markdown-tokens.cpp:514-542 | the first fitting closer is taken: a pair never encloses a pair or a live closer of its own kind that it could have taken |
| EmphasisTermination.StepSpends | cpp_markdown/markdown-tokens.cpp:510-560 | every step that is not a clash lowers a number computed from the state, though the list grows |
| EmphasisTermination.DoneInBudget | cpp_markdown/markdown-tokens.cpp:510-560 | a run that meets no clash within that number of steps is done by then |
| EmphasisTermination.ClashNeverDone | cpp_markdown/markdown-tokens.cpp:519-555 | once a size-3 opener is split against a size-3 closer of the other character, the pass never ends |
| EmphasisTermination.FinishesExactly | cpp_markdown/markdown-tokens.cpp:509-560 | the pass ends if and only if it never comes to such a clash; both can be told after a number of steps computed from the tokens |
| EmphasisTermination.UniformTriplesFinish | cpp_markdown/markdown-tokens.cpp:509-560 | it ends whenever all size-3 markers have one character, which can be read off the tokens |
| EmphasisTermination.MixedTriplesNeverFinish | cpp_markdown/markdown-tokens.cpp:519-532 | on the tokens of `***a___` it does not end |
| EmphasisTermination.MatchedIs | cpp_markdown/markdown-tokens.cpp:509-560 | the result does not depend on how many steps are taken after the end |
| EmphasisTermination.MatchedIsSound | cpp_markdown/markdown-tokens.cpp:509-560 | the result: pairs are linked both ways and are of one character and one size, no live opener has a later live closer it could be matched with or split against, pairs are first fits, and the text is unchanged |
| EmphasisNesting.TopDecides | cpp_markdown/markdown-tokens.cpp:569-574 | at a matched closer the stack is not empty, and its top is the closer's opener exactly if no other pair crosses this one |
| EmphasisNesting.NestStepKeeps | cpp_markdown/markdown-tokens.cpp:563-580 | every step of the stack pass keeps the stack made of the live openers, and the list equal to the first pass less the crossed pairs so far |
| EmphasisNesting.SurvivesExactly | cpp_markdown/markdown-tokens.cpp:562-580 | in the list without the crossed pairs, which is the one that `Emphasis.UnmatchCrossed` leaves, a pair is left if and only if no other pair opens inside it and closes after it, and no pair appears |
| EmphasisNesting.KeepIsSound | cpp_markdown/markdown-tokens.cpp:562-580 | what is left is linked both ways and free of crossings, and its text is unchanged |
| EmphasisNesting.NestedTagsBalance | cpp_markdown/markdown-tokens.cpp:737-748 | without crossings, the em and strong tags written form a balanced word |
| EmphasisNesting.ResolvedIsSound | cpp_markdown/markdown-tokens.cpp:509-580 | the whole resolver: balanced tags, no crossings, marker sizes of at least one, unchanged text, and exactly the uncrossed pairs of the first pass |
| EmphasisLaws.PairsAreOfOneKind | cpp_markdown/markdown-tokens.cpp:533-542 | in the result of the matching pass a pair is an opener and a later closer of one character and one size |
| EmphasisLaws.NothingIsLeft | cpp_markdown/markdown-tokens.cpp:509-560 | and of any opener and later closer left alone, the characters or the sizes differ and neither size is 3 |
| EmphasisLaws.FirstComesFirst | cpp_markdown/markdown-tokens.cpp:509-560 | inside a pair there is no free closer and no pair of its character and size, and in front of it no free opener of its kind: openers are served from left to right, each with the first closer that will do |
| EmphasisLaws.NodeWrites | cpp_markdown/markdown-tokens.cpp:685-748 | what text, a free marker, a disabled marker, and a linked marker of size 1, 2 or 3 write, in literal characters |
| EmphasisLaws.PairWrites | cpp_markdown/markdown-tokens.cpp:737-748 | in the resolved list a pair writes the literal opening tag of its size, then what is between its markers, then the closing tag |
| EmphasisExamples.TripleCloses | cpp_markdown/markdown-tokens.cpp:519-532 | `*a**b***`, with any character and texts: the closing triple is split so that the inner pair closes first |
| EmphasisExamples.TripleOpens | cpp_markdown/markdown-tokens.cpp:543-555 | `***a*b**`: the opening triple is split so that the pair that closes first is the inner one |
| Emphasis.BoldOrItalicMarker.constructor | cpp_markdown/markdown-tokens.h:341-343 | a new marker is linked to none and not disabled |
| Emphasis.BoldOrItalicMarker.Matched | cpp_markdown/markdown-tokens.h:359 | sets the link and the id, and nothing else |
| Emphasis.BoldOrItalicMarker.Disable | cpp_markdown/markdown-tokens.h:361 | sets both flags, and nothing else |
| Emphasis.BoldOrItalicMarker.WriteAsHtml | cpp_markdown/markdown-tokens.cpp:737-748 | writes the tag of its size, in literal characters, or the characters that the marker stands for; a linked marker must have a size from 1 to 3, as the program asserts |
| Emphasis.SplitMarker | cpp_markdown/markdown-tokens.cpp:519-532 | disables a marker and splices two new ones in after it; all other tokens and links are as before |
| Emphasis.LinkMarkers | cpp_markdown/markdown-tokens.cpp:536-541 | points two markers at each other with one id; all others are as before |
| Emphasis.MatchCloser | cpp_markdown/markdown-tokens.cpp:519-555 | what the inner loop does with an unmatched closer is one step of the transition system, and it takes a new id if and only if the two agree in character and size |
| Emphasis.MatchOpener | cpp_markdown/markdown-tokens.cpp:511-558 | the inner loop takes the same steps as the transition system, up to the next opener |
| Emphasis.MatchMarkers | cpp_markdown/markdown-tokens.cpp:509-560 | the matching pass on objects ends with the list that the transition system ends with, and every link points at the mate |
| Emphasis.UnlinkPair | cpp_markdown/markdown-tokens.cpp:571-573 | unlinks a closer and its opener and no other marker |
| Emphasis.PopWhileUnmatched | cpp_markdown/markdown-tokens.cpp:575-577 | removes the openers on top of the stack that are no longer linked, and only those |
| Emphasis.UnmatchAt | cpp_markdown/markdown-tokens.cpp:564-579 | one turn of the stack pass on objects is one step of its transition system |
| Emphasis.UnmatchCrossed | cpp_markdown/markdown-tokens.cpp:562-580 | the stack pass on objects leaves exactly the uncrossed pairs |
| Emphasis.Resolve | cpp_markdown/markdown-tokens.cpp:508-580 | the two passes in a row give the resolved list, all of whose markers meet what writing asserts |
| Emphasis.WriteTokens | cpp_markdown/markdown-tokens.cpp:685-690 | the tokens are written in order |
| ConfigRoundTrip.TokenSurvivesExactly | src/config_parser.cc:70-205 | a token followed by a space or semicolon is read back as itself if and only if it is plain, or quoted without its quote and without two backslashes in a row inside |
| ConfigRoundTrip.TokensOfText | src/config_parser.cc:23-54 | printed statements are read as their tokens, at every depth and before any text |
| ConfigRoundTrip.BuildStatements | src/config_parser.cc:207-282 | the tokens of statements rebuild them, inside any open blocks |
| ConfigRoundTrip.RoundTrip | src/config_parser.cc:23-282 | printing and parsing is the identity on printable configurations; the empty one is rejected |
| ConfigExact.RoundTripExactly | src/config_parser.cc:23-282 | printing and parsing returns a configuration if and only if it is not empty and printable at every depth |
| ConfigExact.ExtraBraceIsAccepted | src/config_parser.cc:258-273 | `a; }` is accepted |
| ConfigExact.TwoExtraBracesAreUndefined | src/config_parser.cc:258-265 | `a; }}` takes a token with the stack empty |
| ConfigExact.LastTokenIsDropped | src/config_parser.cc:198-204 | `a; b` is accepted without its last token |
| ConfigExact.DoubleBackslashIsHalved | src/config_parser.cc:168-178 | of two backslashes in quotes one is read |
| ConfigExact.PrintedAs | src/config_parser.cc:31-54 | a statement with and without a block, at any depth, in literal characters: two spaces for each level, a space between tokens, the block in braces |
| ConfigLexing.CommentIsRead | src/config_parser.cc:181-187 | from a number sign up to the first line feed or carriage return, whatever is between, is one comment; without a line end it is the end of the input |
| ConfigLexing.CommentInFront | src/config_parser.cc:181-187 | a comment with its line end in front of any text does not change the outcome, tree included |
| ConfigLexing.BlanksAreSkipped | src/config_parser.cc:82-115 | a space, tab, line feed or carriage return in front of a token does not matter |
| ConfigLexing.PunctuationIsRead | src/config_parser.cc:82-115 | braces and semicolons are tokens by themselves, before any text |
| ConfigLexing.PlainTokenIsRead | src/config_parser.cc:187-194 | a plain token goes up to the first space, tab, line feed, semicolon or brace, which is left for the next one; a carriage return is a part of it, and at the end of the input it is lost |
| ConfigLexing.QuotedTokenIsRead | src/config_parser.cc:116-180 | a quoted token without a backslash goes up to its quote, behind which there is a space, a tab, a line feed or a semicolon; one that is not closed is an error |
| ConfigLexing.QuoteInsideFails | src/config_parser.cc:116-180 | a quote with any other character behind it, and no backslash in front, is an error |
| ConfigLexing.EscapedQuoteIsRead | src/config_parser.cc:163-164 | a quote behind a backslash is a part of the token, and the backslash is not, if neither a blank nor a semicolon follows |
| ConfigLexing.BackslashesCollapse | src/config_parser.cc:169-178 | of two backslashes in a row the first has no effect |
| ConfigGrammar.AcceptedExactly | src/config_parser.cc:207-282 | a text is accepted if and only if its tokens, less comments, are those of statements, with any number of closing braces at the end left out or one too many, and the last of them ends a statement or a block |
| ConfigTree.CommentsDoNotMatter | src/config_parser.cc:220-223 | leaving out the comments does not change what is built |
| ConfigTree.BuilderKeepsStep | src/config_parser.cc:207-282 | while tokens are legal, the stack holds one block more than are open, and the unfinished tree spells the tokens read |
| ConfigTree.Trouble | src/config_parser.cc:225-277 | the first illegal token makes the parse fail; the first token taken with the stack empty makes it undefined |
| ConfigTree.Ending | src/config_parser.cc:266-273 | at the end of legal tokens the parse succeeds exactly after a statement or a block, with a tree that spells the tokens |
| ConfigTree.OutcomeExactly | src/config_parser.cc:207-282 | for every text: accepted if and only if the token kinds are legal to the end, undefined if and only if some token is taken with an empty stack, rejected otherwise; an accepted tree spells the tokens, with the closers of blocks left open |
| ConfigParser.TakeQuoted | src/config_parser.cc:116-180 | one character of a quoted token, with the look at the next one, does what the tokenizer's function does and leaves the stream in place |
| ConfigParser.ParseToken | src/config_parser.cc:70-205 | the loop over the stream reads the first token of what is left, and leaves the rest |
| ConfigParser.StatementToString | src/config_parser.cc:31-54 | the text of a statement object is the text of the tree it holds |
| ConfigParser.ToString | src/config_parser.cc:23-29 | the text of a configuration object is the text of the tree it holds |
| ConfigParser.TakeNormal | src/config_parser.cc:228-243 | adds a token to the last statement, or to a new one, and keeps the objects in step with the builder |
| ConfigParser.OpenBlock | src/config_parser.cc:249-258 | gives the last statement a block and pushes it |
| ConfigParser.TakeToken | src/config_parser.cc:225-277 | a legal token keeps the objects and the stack in step with the builder |
| ConfigParser.Parse | src/config_parser.cc:207-282 | answers true exactly when the text is accepted, and then the object holds the tree; if it answers false, the objects hold the unfinished tree of the tokens before the first illegal one |
| Streams.InputStream.Get | src/config_parser.cc:76-80 | reads the next character; at the end the stream fails |
| Streams.InputStream.Unget | src/config_parser.cc:189-191 | puts the last character back |
| BlockExpressions.BlankLine | cpp_markdown/markdown.cpp:101-104 | the lines that match: spaces, or up to three spaces and what the expression takes for a comment, spelled out |
| BlockExpressions.QuoteMark | cpp_markdown/markdown.cpp:241-250 | up to three spaces and a quote mark |
| BlockExpressions.BulletLine | cpp_markdown/markdown.cpp:295-320 | the lines that match, with what is captured: spaces, the bullet, at least one space, and a text that takes a space back if it would be empty or start with a star or minus |
| BlockExpressions.NumberLine | cpp_markdown/markdown.cpp:296-330 | spaces, digits, a dot, at least one space, and a text that starts with none |
| BlockExpressions.ListLine | cpp_markdown/markdown.cpp:311-330 | a line starts a list of some indentation and kind, with some content, if and only if it is an item of that list with that content |
| BlockExpressions.SublistLine | cpp_markdown/markdown.cpp:337-339 | more spaces than the list has, a bullet or a number with a dot, and a space |
| BlockExpressions.HashLine | cpp_markdown/markdown.cpp:544-548 | one to six hashes, which are the level, spaces, the shortest text, spaces, and any number of hashes |
| BlockExpressions.UnderLine | cpp_markdown/markdown.cpp:554-556 | a line of minus signs or of equals signs, and nothing else |
| BlockExpressions.RuleLine | cpp_markdown/markdown.cpp:570-572 | up to three spaces, and three or more marks with any spaces between and behind them |
| BlockKinds.HeaderExactly | cpp_markdown/markdown.cpp:541-566 | a header has as many levels as hashes; without hashes, a line of equals signs below makes level 1 and one of minus signs level 2, and the text is the line itself; where the iterator is left |
| BlockKinds.CodeLineIs | cpp_markdown/markdown.cpp:190-211 | a line of code is four spaces and the code |
| BlockKinds.KindExactly | cpp_markdown/markdown.cpp:764-790 | which kind of block starts at a line, told by the line and the next one: heading before rule, and of the others only a list is left to choose |
| BlockLines.StartIsContinuation | cpp_markdown/markdown.cpp:241-250 | the first line of a quote matches the continuation expression built from its level, with the same content |
| BlockLines.LevelIsLargest | cpp_markdown/markdown.cpp:241-250 | a line with some quote marks and then a space starts a quote, whose level is the largest number of marks that a space follows |
| BlockLines.MatchList | cpp_markdown/markdown.cpp:295-332 | the first line of a list matches the next-item expression built from its indentation and marker, with the same content |
| LineMarks.QuoteTakesMarks | cpp_markdown/markdown.cpp:241-250 | the first line of a quote loses exactly the quote marks of its level and a space |
| LineMarks.ContinuationTakesMarks | cpp_markdown/markdown.cpp:249-250 | a continuation loses exactly as many quote marks, and a space if there is one |
| LineMarks.ItemTakesMarker | cpp_markdown/markdown.cpp:295-332 | an item loses exactly its indentation, one bullet or one number with its dot, and spaces |
| BlockProofs.CodeRunLines | cpp_markdown/markdown.cpp:190-211 | a code block takes blank and code lines only, ends in a code line, and holds each line without its first four spaces |
| BlockProofs.CodeRunIsLongest | cpp_markdown/markdown.cpp:190-211 | every code line behind it is cut off by a line that is neither blank nor code |
| BlockProofs.QuoteLosesChars | cpp_markdown/markdown.cpp:240-292 | a quote holds fewer characters than the lines it took |
| BlockProofs.ListLosesChars | cpp_markdown/markdown.cpp:294-487 | so does a list, with all its sub-lists |
| BlockText.CodeSpells | cpp_markdown/markdown.cpp:190-230 | a code block spells the lines it took, in order, each once, less leading spaces and nothing else |
| BlockText.QuoteSpells | cpp_markdown/markdown.cpp:240-292 | a quote spells the lines it took, each less the quote marks of its level and one space; which blank lines are kept is in `QuoteLayout.QuoteIsLaidOut` |
| QuoteLayout.QuoteIsLaidOut | cpp_markdown/markdown.cpp:240-292 | a quote has one token for each line it takes, in order, less only a blank line at the very end of the input: an empty line for a blank one, else the line less its marks, blank if nothing is left; and it ends where a line has fewer marks |
| BlockText.ListSpells | cpp_markdown/markdown.cpp:294-487 | a list, with all its sub-lists, spells the lines it took, each less leading spaces or one item marker |
| ListLayout.NestedCodeIs | cpp_markdown/markdown.cpp:397-421 | a code block of an item has one entry for each line up to the first one that is not as deep, each less the indentation, with single blank lines only between others |
| ListStarts.ListIsLaidOut | cpp_markdown/markdown.cpp:365-474 | the items of a list lie behind each other from its first line to its end, with at most one blank line between two, their first lines strictly increasing; each holds the text on its marker line and then, part by part, exactly what the lines up to the next item add: text, sub-lists, code, and the blank lines kept; and why the list ends there |
| ListStarts.ItemsStartExactly | cpp_markdown/markdown.cpp:365-474 | an item starts at a line if and only if it is the first line of the list or its loop meets it as a line with the marker and indentation of the list |
| ListStarts.OwnLineStartsItem | cpp_markdown/markdown.cpp:426-455 | any line on which the loop of the list itself decides starts an item if and only if it has the marker and indentation of the list |
| ListStarts.ParagraphsExactly | cpp_markdown/markdown.cpp:374-395 | a list is in paragraph mode if and only if its loop meets a blank line in front of an item, a sub-list, or code |
| ListStarts.FalseAlarmExactly | cpp_markdown/markdown.cpp:473-484 | a list line is no list if and only if it is as deep as code and not inside an item, or is not indented and has no second item, no sub-list and no code |
| ListStarts.ItemSpells | cpp_markdown/markdown.cpp:365-474 | an item spells the lines from its first up to where the next item, or a blank line in front of it, starts |
| BlockLists.ListIsNested | cpp_markdown/markdown.cpp:294-487 | all items of a list start at its indentation, and every sub-list is deeper than the list around it |
| ListTrouble.NestedCodeExactly | cpp_markdown/markdown.cpp:397-421 | the look-ahead inside a code block of an item reads something that is no line if and only if deep lines lead to a blank line with no line of text behind it |
| ListTrouble.RunFailsExactly | cpp_markdown/markdown.cpp:365-465 | the loop of a list fails if and only if, at some place it comes to in its own lines or those of a sub-list, a line starts a sub-list and is no list line, or is not blank and only spaces, or opens a code block whose look-ahead fails |
| ListTrouble.ListFailsExactly | cpp_markdown/markdown.cpp:294-487 | the list parser fails if and only if it starts a list and its loop fails so |
| ListTrouble.ListDefined | cpp_markdown/markdown.cpp:294-487 | a condition to be read off the lines under which it never fails |
| ListTrouble.EmphasisInSublistFails | cpp_markdown/markdown.cpp:428-431 | the assertion at line 431 fails on `* a` and `  * *b*` |
| ListTrouble.BlankAfterNestedCodeFails | cpp_markdown/markdown.cpp:402-405 | with a blank line at the end behind a code line of an item, the look-ahead reads past the end |
| BlockDriver.RecognizedShrinks | cpp_markdown/markdown.cpp:759-790 | the measure that makes the recursive driver end on every input |
| BlockDriver.SpanAdvances | cpp_markdown/markdown.cpp:764-790 | every turn of the driver takes at least one line |
| BlockDriver.DriverFollowsSpans | cpp_markdown/markdown.cpp:764-790 | the driver returns one processed token for every span of lines, in order |
| BlockLayout.SpanIsLaidOut | cpp_markdown/markdown.cpp:759-790 | every span of the driver, all of it in terms of lines: the kind of the block, the lines it takes, what it holds of each, and whether the next line is skipped; any other line stays as it is |
| BlockLayout.DriverIsLaidOut | cpp_markdown/markdown.cpp:759-790 | so it is for all spans of a run, and the driver returns one processed token for each |
| BlockDriver.SkippedInterrupts | cpp_markdown/markdown.cpp:764-790 | a line that is skipped and not blank is no code line behind code; or no continuation, of its level, behind a quote; or a list line, but neither the next item nor the start of a sub-list, behind a list |
| BlockDriver.EveryLineAccounted | cpp_markdown/markdown.cpp:764-790 | every line goes to exactly one block or is skipped exactly once, and of the lines that are not blank exactly those that break off a block in this way are skipped |
| BlockDriver.LostExactly | cpp_markdown/markdown.cpp:764-790 | a line that is not blank is in no block if and only if it breaks off the block in front of it |
| LineText.HeadingSays | cpp_markdown/markdown.cpp:541-550 | the text of a heading is its line less spaces and hashes at both ends, and says what the line says |
| LineText.BlankSaysNothing | cpp_markdown/markdown.cpp:101-104 | a blank line, be it a comment, says nothing |
| BlockConservation.BlockSpells | cpp_markdown/markdown.cpp:764-790 | every block made of lines that is no header and no rule spells the lines it covers, each less what a block of its kind may take off |
| BlockConservation.BlockSays | cpp_markdown/markdown.cpp:764-790 | every block, headers and rules included, says what the lines it covers say |
| BlockConservation.DriverKeepsText | cpp_markdown/markdown.cpp:759-790 | at every depth: the blocks say what the lines say, in order, each line once, if and only if no block at any depth is broken off by a line that says something; else they say less |
| BlockConservation.DocumentKeepsTextExactly | cpp_markdown/markdown.cpp:656-790 | the same from the text of a source without HTML and link references to its blocks |
| BlockTrouble.QuoteFailsExactly | cpp_markdown/markdown.cpp:255-288 | the loop of a quote asks a container for its text if and only if continuations lead to a container, or to a blank line with a container behind it |
| BlockTrouble.RecognizeFailsExactly | cpp_markdown/markdown.cpp:771-776 | a parser fails at a line if and only if it is no heading and no rule and starts a list, less than four spaces in, whose loop comes to trouble, or a quote that comes to a container |
| BlockTrouble.DriverFailsExactly | cpp_markdown/markdown.cpp:759-790 | the block pass fails if and only if there is such a line, at the top or in some block at any depth |
| BlockTotality.TameIsDriven | cpp_markdown/markdown.cpp:759-790 | a condition to be read off the lines under which no parser fails at any depth |
| BlockExamples.TextAfterCodeIsLost | cpp_markdown/markdown.cpp:213-228 | any line that is not indented and no underline disappears directly after a code block, and the text is kept if and only if the line says nothing |
| BlockExamples.NumberAfterCodeIsLost | cpp_markdown/markdown.cpp:213-228 | a date on such a line is text that is lost |
| BlockExamples.TextAfterQuoteIsLost | cpp_markdown/markdown.cpp:255-288 | so does one after a quote |
| BlockExamples.ItemAfterOtherListIsLost | cpp_markdown/markdown.cpp:434-442 | and a list line with another bullet after a list |
| BlockExamples.QuoteBeforeSublistFails | cpp_markdown/markdown.cpp:277-279 | a quote in front of a sub-list, in an item: the driver fails, though the lines are plain |
| BlockParser.IsCodeBlockLine | cpp_markdown/markdown.cpp:190-211 | collects the lines up to the next code line, or puts the iterator back to where it was |
| BlockParser.ParseCodeBlock | cpp_markdown/markdown.cpp:213-228 | the loop collects the longest run of code lines |
| BlockParser.ParseBlockQuote | cpp_markdown/markdown.cpp:240-292 | the loop with its look-ahead over blank lines builds the quote that the function describes, or fails where it reads past the lines |
| BlockParser.ParseNestedCode | cpp_markdown/markdown.cpp:397-421 | the inner loop collects the code block of an item |
| BlockParser.AtBlankLine | cpp_markdown/markdown.cpp:367-425 | the loop body at a blank line, with its look at the next one: the next item, the end, or one step of the loop |
| BlockParser.AtTextLine | cpp_markdown/markdown.cpp:426-450 | the loop body at any other line |
| BlockParser.ParseListBlock | cpp_markdown/markdown.cpp:294-487 | the loop over items, continuations, sub-lists and blank lines builds the list that the function describes, and after a false alarm puts the iterator back to where it was |
| BlockParser.FirstAnswer | cpp_markdown/markdown.cpp:771-776 | the parsers are tried in order, and the first answer counts |
| BlockParser.ProcessBlocksItems | cpp_markdown/markdown.cpp:759-790 | the driver's loop, with its recursion into blocks and containers, gives the container that the function describes |
| Lines.NextLineReads | cpp_markdown/markdown.cpp:630-654 | one call returns the text up to the first line end with its tabs expanded, leaves what follows the line end, and answers false only at the end of the input |
| Lines.LineEndIs | cpp_markdown/markdown.cpp:638-643 | a line feed, a carriage return, or one of each in either order ends a line, and no more is taken |
| Lines.LinesAreClean | cpp_markdown/markdown.cpp:630-654 | no line has a line end or a tab in it |
| Lines.TabsPadToStops | cpp_markdown/markdown.cpp:644-651 | a tab pads with spaces to the next tab stop, of width four while the line is white space; any other character takes one column |
| Lines.CleanLinesComeBack | cpp_markdown/markdown.cpp:630-672 | lines without line ends and tabs, each followed by a line feed, are read as they are |
| Lines.ClosedParts | cpp_markdown/markdown.cpp:630-654 | after a line end, reading goes on with what comes next, less the half of a line end already taken |
| Lines.OpenParts | cpp_markdown/markdown.cpp:630-654 | cut inside a line, the parts give one line more than the whole |
| Lines.ComposesExactly | cpp_markdown/markdown.cpp:630-672 | reading two parts gives the lines of the whole if and only if one is empty, or the first ends at a line end whose other half, if still possible, begins the second in whole pairs only |
| LineReader.Document.GetLine | cpp_markdown/markdown.cpp:630-654 | the loop over the stream reads the next line and leaves the rest; what it asks is that no tab have a width of 0, which the program would divide by |
| LineReader.Document.ReadFrom | cpp_markdown/markdown.cpp:656-674 | one token for every line is appended, blank or raw; a processed document is left alone |
| Entities.EncodeString | cpp_markdown/markdown-tokens.cpp:38-61 | the loop computes the encoding |
| Entities.SpecialsAreGone | cpp_markdown/markdown-tokens.cpp:56-58 | under their flags, no angle bracket and no quote is left |
| EntityReferences.FoundExactly | cpp_markdown/markdown-tokens.cpp:47-48 | the search behind an ampersand succeeds if and only if somewhere from it on there are `&#`, one to three decimal digits or an x and one or two hexadecimal ones, and a semicolon; or `&amp;`, at the ampersand itself or at a line start |
| EntityReferences.AmpersandExactly | cpp_markdown/markdown-tokens.cpp:46-54 | in ordinary text an ampersand is encoded if and only if there is no such place |
| EntityReferences.LongNumberIsEncoded | cpp_markdown/markdown-tokens.cpp:46-54 | one in front of four or more digits is encoded, if no other ampersand is behind it |
| EntityReferences.ChangesExactly | cpp_markdown/markdown-tokens.cpp:46-58 | which characters become which references under which flags, and that all others stay |
| Entities.DecodesBack | cpp_markdown/markdown-tokens.cpp:55-59 | with ampersands doubled, decoding the references of section 5.3 of HTML 4.01 gives the text back, with any further entity names |
| Entities.DecodesBackExactly | cpp_markdown/markdown-tokens.cpp:38-61 | decoding gives every text back if and only if the flags are those with doubled ampersands, as for code blocks and code spans |
| EncodingStability.EncodingKeepsFound | cpp_markdown/markdown-tokens.cpp:47-54 | where an ampersand was kept, the search succeeds again in the encoded text |
| EncodingStability.StableExactly | cpp_markdown/markdown-tokens.cpp:38-61 | encoding ordinary text twice is encoding it once, if and only if behind every angle bracket and quote an ampersand starts a line or a numeric reference; so it is for text without them |
| EncodingStability.BracketIsNotStable | cpp_markdown/markdown-tokens.cpp:56 | an angle bracket by itself is encoded again by a second pass |
| EncodingLoss.TextDecodesBackExactly | cpp_markdown/markdown-tokens.cpp:38-61 | whatever the flags, an encoded text decodes to itself if and only if no ampersand that is kept starts a reference; else it decodes to a shorter text |
| EmailEncoding.EmailEncode | cpp_markdown/markdown-tokens.cpp:90-105 | the loop computes the references, decimal and hexadecimal in turn |
| EmailEncoding.EmailAlternates | cpp_markdown/markdown-tokens.cpp:96-102 | of two bytes below 128 the first is written in decimal and the second in hexadecimal, and so on |
| EmailEncoding.EmailDecodesBack | cpp_markdown/markdown-tokens.cpp:90-105 | decoding gives the address back, whatever bytes it is made of |
| EmailEncoding.EmailPassesExactly | cpp_markdown/markdown-tokens.cpp:445-450 | an encoded address passes the encoder unchanged if and only if ampersands are not doubled, or all its bytes are above 127 |
| Numbers.DigitsReadBack | cpp_markdown/markdown-tokens.cpp:98-100 | a number written in decimal or hexadecimal digits has its value |
| Placeholders.RestoreProcessedItems | cpp_markdown/markdown-tokens.cpp:626-657 | the loop over the matches computes the restored text, and fails where a reference has no meaning |
| Placeholders.EncodeProcessedItems | cpp_markdown/markdown-tokens.cpp:593-624 | the loop over the matches computes the tokens |
| Placeholders.ReadersAgree | cpp_markdown/markdown-tokens.cpp:593-657 | on every text one reader fails where the other does, and else the tokens read back as the restored text |
| Escapes.ProcessEscapedCharacters | cpp_markdown/markdown-tokens.cpp:301-324 | the loop over the backslashes computes the escaped text |
| PlaceholderTexts.PlaceholderMatches | cpp_markdown/markdown-tokens.cpp:287-312 | a placeholder that was written is found, with its reference |
| PlaceholderTexts.ValidIsReadable | cpp_markdown/markdown-tokens.cpp:612-650 | on a valid text neither reader fails: no index is out of range |
| PlaceholderTexts.FreshPlaceholder | cpp_markdown/markdown-tokens.cpp:287-289 | the placeholder written for a table of some size stands for the next entry pushed |
| PlaceholderTexts.PassKeepsText | cpp_markdown/markdown-tokens.cpp:226-464 | any pass that replaces parts of a valid text leaves it valid for the larger table, and restoring gives the same if every entry stands for what it replaced |
| Escapes.EscapesExactly | cpp_markdown/markdown-tokens.cpp:24-32 | a backslash and the character behind it stay as they are if and only if the character is none of the sixteen that can be escaped |
| Escapes.EscapingKeepsText | cpp_markdown/markdown-tokens.cpp:301-324 | escaping a text that already has placeholders keeps it valid and does not change what it restores to |
| Escapes.RestoreUndoesEscape | cpp_markdown/markdown-tokens.cpp:301-324 | on every text without marks, restoring undoes escaping, and the tokens read back as the text |
| CodeSpans.FirstSpan | cpp_markdown/markdown-tokens.cpp:276-285 | the search takes the first place where a span can open, and closes it as early as possible |
| CodeSpans.SingleSpanIs | cpp_markdown/markdown-tokens.cpp:278 | a span of the second pass: a backquote with no backslash in front, at least one character, a backquote |
| CodeSpans.DoubledSpanIs | cpp_markdown/markdown-tokens.cpp:277 | a span of the first pass: the same with two backquotes and a space on either side |
| CodeSpans.ProcessSpans | cpp_markdown/markdown-tokens.cpp:281-296 | the loop of one pass computes the text with placeholders and the table |
| CodeSpans.ProcessCodeSpans | cpp_markdown/markdown-tokens.cpp:273-299 | the two passes, one after the other |
| CodeSpans.CodeSpanRestores | cpp_markdown/markdown-tokens.cpp:679-681 | a code span in single backquotes is restored as it was written, one in double backquotes is not |
| CodeSpans.SpanPassKeepsText | cpp_markdown/markdown-tokens.cpp:280-298 | a pass over a valid text never fails, only adds to the table, and leaves a valid text; the one for single backquotes does not change what it restores to |
| CodeSpans.DoubledShortens | cpp_markdown/markdown-tokens.cpp:280-298 | the pass for double backquotes makes the restored text shorter whenever it finds a span |
| CodeSpans.SpansAndEscapesExactly | cpp_markdown/markdown-tokens.cpp:273-324 | a valid text, such as the pass for attributes leaves, after both passes and the escapes: every index is in range, and restoring gives what it gave if and only if no span was written in double backquotes |
| CodeSpans.AllPassesStayReadable | cpp_markdown/markdown-tokens.cpp:215-224 | a source without marks through attributes, code spans, escapes and links: both readers are defined on what comes out |

## Left out

- The expressions that find emphasis markers, links, images, HTML tags and their attributes: the resolver starts from the markers, and the passes other than those for code spans and escapes from a source already cut into parts.
- Runs of mixed delimiters, of which the tokenizer keeps the first character only.
- Inline HTML blocks and comments, link references, paragraphs, and the HTML that block tokens write.
- Token containers are values, not objects swapped in place; `std::list` iterators are positions, and sharing between tokens does not appear. The markers of the emphasis resolver are objects.
- Emphasis.MatchMarkers: asks for an input on which the pass ends, since the program does not end on others; `FinishesExactly` says which these are.
- Emphasis.Resolve: the same.
- ConfigParser.Parse: starts from an empty configuration and leaves out texts on which the program uses its empty stack; `ghost` members and parameters keep track of which objects hold which tree.
- ListTrouble.ListDefined: one direction; `ListFailsExactly` has both, in terms of the places the parser comes to.
- BlockTotality.TameIsDriven: one direction, for lines without quote marks and deep indentation; `BlockTrouble.DriverFailsExactly` has both directions, for all lines.
- BlockConservation.DriverKeepsText: compares texts without markup at their ends; lines of rule marks or equals signs, and bare item markers, count as no text, and `BlockDriver.LostExactly` has them.
- BlockConservation.DocumentKeepsTextExactly: for sources none of whose lines starts an HTML tag, a comment or a link reference, since the passes that take these out are not part of the model.
- PlaceholderTexts.PassKeepsText: the parts that a pass replaces are given, not found, and it is asked of them that they do not cut a placeholder.
- CodeSpans.AllPassesStayReadable: where attributes and links stand is given, and it is asked of the links that they do not cut a placeholder.
- Character encodings: a character of the model stands for a byte, and 255 for the end of file in a look-ahead.
- Logging, files, sessions, the server, request handlers, `ExtractPort` and `ExtractLocation`: input and output, or without a meaning of their own to prove.
