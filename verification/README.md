# ASCII STL reading and mesh validation, in Dafny

This project models two parts of a Go STL library:

- The ASCII STL parser (`readascii.go`). It is a cursor over the input lines: the current line and word, a line counter, an end-of-file flag and an ordered list of diagnostics. It reads the grammar
  `solid <name>` · (`facet normal P outer loop vertex P vertex P vertex P endloop endfacet`)* · `endsolid`,
  where P is three numbers. It appends every facet that parses to a `Solid`. After an error it resynchronises on the next `facet` or `endsolid`.
- The `Solid` container and its mesh validator (`solid.go`). The container has setters, `SetTriangleCount` and `AppendTriangle`. `Validate` builds an index from each directed edge to the triangles that hold it. It then reports, per triangle:
  - degenerate vertices;
  - a normal that disagrees with the winding;
  - edges shared in the same direction;
  - edges whose count of reversed partners is not exactly one.

The model is written in the source's own form:

- The parser is a class (`AsciiParser.Parser`) whose methods update its fields step by step, with loops for the triangle loop and for resynchronisation.
- `Solid` is a class (`Solids.Solid`), and the edge lookup is a class (`EdgeIndex.EdgeLookup`) holding a map.
- `Validate` fills the lookup and the findings map in nested loops.

Every method is proved against a pure specification:

- `Grammar.ParseSpec` and its pieces give what the parser computes, over the token sequence of the input lines (`Lexer.Tokens`).
- `Validation.Findings` gives what `Validate` returns, in terms of the mesh (`EdgeIndex.Sharers`).

The properties of the source are then proved about those functions, in `GrammarFacts` and `ValidationFacts`.

Modules, by file:

- `wrappers.dfy`: `Option`.
- `geometry.dfy`: points, triangles and directed edges.
- `keywords.dfy`: the nine keywords and whole-word matching.
- `lexer.dfy`: lines, tokens, and the order in which the scanners hand out words.
- `diagnostics.dfy`: the `"<line>: <message>"` rendering and the error text.
- `grammar.dfy`: the grammar as functions.
- `parser.dfy`: the parser class.
- `grammar_facts.dfy`: whole-file behaviour for any layout of the words into lines: a well-formed file, a file cut off inside a facet, a number that does not convert, a stray word, an empty file and a bad header.
- `edge_lookup.dfy`: the edge index.
- `validation.dfy`: findings records and the reference findings map.
- `solid.dfy`: the `Solid` class, `Validate`.
- `validation_facts.dfy`: what the findings mean for particular meshes.

Three behaviours of the code worth noting:

- A number missing at the end of the input fails the facet without a diagnostic. Every other failing step calls `addError` (readascii.go:46-48, 174-176, 207-217), but `parseFloat64` returns false at end of file without one (readascii.go:170-171). `Grammar.Number` and `GrammarFacts.TruncatedFacet` state this.
- An edge shared in the same direction by another triangle and held reversed by exactly one triangle is recorded with an empty counter list. `HasNoCounterEdge` then holds although a counter edge exists. This follows `solid.go:403-406`, which stores the counter list only when its length is not 1. `ValidationFacts.EdgeFindingMeaning` and `ValidationFacts.CounterEdgeNotRecorded` state it.
- "File is empty" is reported whenever no line holds a word, not only for zero bytes, because `newParser` skips blank lines before `Parse` tests `eof` (`GrammarFacts.EmptyFile`).

## Model

| member | source | states |
|---|---|---|
| Keywords.Classify | readascii.go:50-86 | a word names a keyword exactly when it is that keyword's whole spelling, and the keyword is unique |
| Keywords.IsIdent | readascii.go:184-187 | definition: a word matches a keyword set's pattern iff it is the spelling of a keyword in the set |
| Keywords.IsIdentClassify | readascii.go:184-187 | a word matches a keyword set's pattern iff it names a keyword in the set |
| Keywords.IsIdentSingle | readascii.go:63-72 | a single-keyword pattern matches exactly that keyword's spelling |
| Keywords.TextInjective | readascii.go:76-86 | no two keywords share a spelling, so `facet` and `endsolid` are told apart |
| Lexer.LineTokens | readascii.go:238-245 | the tokens of a line are its words in order, each tagged with the line's number |
| Lexer.Tokens | readascii.go:238-245 | definition: the tokens of lines k onwards, line by line |
| Lexer.TokensFrom | readascii.go:219-236 | definition: the words still to be handed out when `used` words of line n are gone |
| Lexer.TokenLines | readascii.go:238-245 | every token read from lines k.. carries a line number in k+1..\|lines\| |
| Lexer.TokensFromIsTokens | readascii.go:219-245 | handing out words one at a time, moving to the next line when one runs out, yields the line-by-line token sequence |
| Lexer.TokensFromStart | readascii.go:238-245 | starting a line with no word used reads that line's tokens onwards |
| Lexer.TokensEmpty | readascii.go:37-44 | the tokens run out iff every remaining line has no word (blank lines are skipped) |
| Lexer.TokensAscend | readascii.go:241 | line numbers never decrease along the token sequence |
| Lexer.Words | readascii.go:219-236 | the words of a token sequence, position by position |
| Lexer.WordsAppend | readascii.go:219-236 | the words of a concatenation are the concatenated words |
| Lexer.WordsOfLine | readascii.go:242-244 | the tokens of one line carry exactly its words |
| Lexer.TokensWords | readascii.go:219-245 | tokenising keeps every word and its order |
| Diagnostics.DigitChar | readascii.go:47 | a digit value renders as a decimal digit |
| Diagnostics.DigitValue | readascii.go:47 | a digit reads back as the unique value that renders as it |
| Diagnostics.Decimal | readascii.go:47 | `%d` of a line number: non-empty, all digits, no leading zero |
| Diagnostics.DecimalRoundTrip | readascii.go:47 | reading a rendered line number back gives the number |
| Diagnostics.DecimalInjective | readascii.go:47 | distinct line numbers render differently |
| Diagnostics.DiagnosticLine | readascii.go:47 | definition: a diagnostic renders as `"<line>: <message>"` |
| Diagnostics.Render | readascii.go:124-127 | definition: every diagnostic on its own line, in order |
| Diagnostics.ErrorText | readascii.go:119-129 | definition: the optional banner followed by the rendered diagnostics |
| Diagnostics.ErrorTextStep | readascii.go:124-127 | one more diagnostic appends exactly its own line to the error text |
| Diagnostics.RenderAppend | readascii.go:124-127 | diagnostics appear in the text in recording order |
| Diagnostics.RenderStartsWithLine | readascii.go:47 | a non-empty rendering starts with the first diagnostic's line number |
| Diagnostics.ErrorTextBanner | readascii.go:121-123 | the text opens with the "Triangles had to be skipped." banner iff triangles were skipped |
| Diagnostics.ErrorTextEmpty | readascii.go:119-129 | the error text is empty iff nothing was skipped and nothing recorded |
| Grammar.Expect | readascii.go:207-217 | a keyword step succeeds iff the current word is the keyword, then advances one word; otherwise it records `"<k>" expected` on the current line and does not move |
| Grammar.Number | readascii.go:169-182 | a number step succeeds iff the word converts, then advances one word; at end of input it fails with no diagnostic, otherwise it records "Unable to parse float" |
| Grammar.Point | readascii.go:163-167 | three number steps in a row: a success consumes exactly three words, a failure records at most one diagnostic |
| Grammar.FacetFrom | readascii.go:152-161 | the facet steps from a given one on; they consume input when they succeed and record at most one diagnostic |
| Grammar.WordStep | readascii.go:152-161 | a keyword step of the facet continues with the next step when the keyword is present, and fails as `Expect` fails otherwise |
| Grammar.PointStep | readascii.go:154-158 | a point step stores the point in the normal or the matching vertex and continues |
| Grammar.FacetRule | readascii.go:152-161 | a facet either consumes input and yields a triangle, or fails with at most one diagnostic |
| Grammar.SkipTo | readascii.go:189-205 | resynchronisation stops on the first word of the set, or at end of input, and only moves forward |
| Grammar.SkipToSuffix | readascii.go:189-205 | the tokens left after resynchronising are a suffix of those before it, and no word skipped is in the set |
| Grammar.TriangleLoop | readascii.go:94-111 | the triangle loop stops at end of input or in front of `endsolid` |
| Grammar.StrayFirst | readascii.go:96-102 | a stray word records `"facet" or "endsolid" expected`, adds no triangle, does not mark triangles as skipped, and resynchronises |
| Grammar.SyncStop | readascii.go:98-101 | resynchronising lands on `facet` exactly when the loop goes on |
| Grammar.FacetFirst | readascii.go:104-110 | on `facet`, a facet that parses is appended; a failing one records its diagnostic, marks triangles as skipped and resynchronises |
| Grammar.SkipStray | readascii.go:96-98 | resynchronising from a stray word moves past it |
| Grammar.AfterAfter | readascii.go:94-111 | results of consecutive rounds combine by concatenation |
| Grammar.AfterStray | readascii.go:96-110 | a stray report followed by a round is that round with the report in front |
| Grammar.HeaderName | readascii.go:139-146 | a name is taken iff the header line starts with "solid ", from the remainder of the line |
| Grammar.HeaderAndLoop | readascii.go:88-112 | definition: the empty-file report, or the header line and then the triangle loop over the rest |
| Grammar.FinalCheck | readascii.go:114-116 | definition: `endsolid` is consumed only when no flag is set; success is the conjunction |
| Grammar.ParseSpec | readascii.go:88-117 | definition: what Parse returns and records, as `HeaderAndLoop` then `FinalCheck`; `AsciiParser.Parser.Parse` is proved equal to it |
| AsciiParser.Parser.RestSplit | readascii.go:24-35 | the cursor's remaining tokens are the current word on the current line, then what the scanners still hold; empty iff eof |
| AsciiParser.Parser.constructor | readascii.go:37-44 | a new parser is positioned on the first word of the input, with no diagnostics and no flags |
| AsciiParser.Parser.AddError | readascii.go:46-48 | appends one diagnostic on the current line and nothing else |
| AsciiParser.Parser.NextWord | readascii.go:219-236 | drops exactly the current token; true iff not at end; the line counter never decreases |
| AsciiParser.Parser.NextLine | readascii.go:238-254 | moves to the tokens of the next line onwards, skipping wordless lines; true iff not at end |
| AsciiParser.Parser.IsCurrentTokenIdent | readascii.go:184-187 | true iff there is a current word and it matches the keyword set |
| AsciiParser.Parser.SkipToToken | readascii.go:189-205 | leaves the cursor where `Grammar.SkipTo` stops; returns the keyword it stopped on (`facet` or `endsolid` told apart), or None at end of input |
| AsciiParser.Parser.ConsumeToken | readascii.go:207-217 | does what `Grammar.Expect` says to the cursor and the diagnostics |
| AsciiParser.Parser.ParseFloat | readascii.go:169-182 | does what `Grammar.Number` says and returns the converted value |
| AsciiParser.Parser.ParsePoint | readascii.go:163-167 | does what `Grammar.Point` says and returns the point |
| AsciiParser.Parser.ParseVertex | readascii.go:156-158 | one `vertex P` of the facet, as two steps of `Grammar.FacetFrom` |
| AsciiParser.Parser.ParseVertices | readascii.go:156-158 | the three vertices, as `Grammar.FacetFrom` from the first vertex step to `endloop` |
| AsciiParser.Parser.ParseLoop | readascii.go:155-159 | `outer loop` through `endloop`, as `Grammar.FacetFrom` |
| AsciiParser.Parser.ParseFacet | readascii.go:152-161 | does what `Grammar.FacetRule` says: the triangle on success, the cursor left where the facet failed and its one diagnostic otherwise |
| AsciiParser.Parser.ParseHeaderLine | readascii.go:133-150 | reports "unexpected end of file" at eof; otherwise sets the name iff the line starts with "solid " and reports a bad header otherwise; the whole line is consumed in every case |
| AsciiParser.Parser.Parse | readascii.go:88-117 | the result, both flags, the diagnostics, the name set and the triangles appended are exactly `Grammar.ParseSpec` of the input; the error text is the banner and the diagnostics |
| AsciiParser.Parser.HeaderOrEmpty | readascii.go:89-112 | an empty file is reported and no loop runs; otherwise the header and the triangle loop are read, as `Grammar.HeaderAndLoop` |
| AsciiParser.Parser.CheckEndAndReport | readascii.go:114-116 | `endsolid` is looked for, and reported if missing, only when neither flag is set; success is the conjunction of the three; then the error text is generated |
| AsciiParser.Parser.ParseBody | readascii.go:92-111 | the header line and then the triangle loop, with the header flag set as the header line says |
| AsciiParser.Parser.RunTriangleLoop | readascii.go:94-111 | the loop appends exactly the triangles, diagnostics and skipped flag of `Grammar.TriangleLoop` and stops where it says |
| AsciiParser.Parser.TriangleLoopRound | readascii.go:95-110 | one round of the loop: progress is made, and the round's contribution composes with the rest of `Grammar.TriangleLoop` |
| AsciiParser.Parser.ReportStray | readascii.go:96-101 | records the stray-word diagnostic on the word's line and resynchronises; the loop goes on iff it landed on `facet` |
| AsciiParser.Parser.FacetRound | readascii.go:104-110 | appends the parsed triangle, or marks triangles as skipped and resynchronises |
| AsciiParser.Parser.GenerateErrorText | readascii.go:119-129 | the error text is the optional banner followed by every diagnostic on its own line |
| GrammarFacts.FacetReadsBack | readascii.go:152-161 | 21 words spelling a facet for t, on whatever lines, parse back to exactly t and leave the input after them |
| GrammarFacts.FacetStopsAt | readascii.go:163-182 | a facet whose words agree up to a number word that is missing or does not convert fails there: with no diagnostic at end of input, with one "Unable to parse float" on that word's line otherwise |
| GrammarFacts.LoopReads | readascii.go:94-111 | over consecutive facets the loop appends each triangle once, in order, records nothing, and goes on after them |
| GrammarFacts.LoopToEnd | readascii.go:94-111 | facets followed by `endsolid`: the loop appends exactly their triangles and stops in front of `endsolid` |
| GrammarFacts.SolidFile | readascii.go:88-117 | with a "solid " header line, Parse is the triangle loop over the words after that line, then the final check |
| GrammarFacts.WellFormedFile | readascii.go:88-117 | for any layout of the words into lines (blank lines included, anything after `endsolid`, such as its name, unread): a "solid " header, facets and `endsolid` parse successfully to the header's name and exactly those triangles in order, with no diagnostic |
| GrammarFacts.TruncatedFacet | readascii.go:169-172 | input ending inside the numbers of the facet after k good ones: those k triangles are appended, triangles are marked as skipped, nothing is recorded, and Parse fails |
| GrammarFacts.BadNumberRound | readascii.go:104-110 | step of `BadNumber`: one loop round over a facet with a bad number records one diagnostic, marks skipped and resumes at the next facet |
| GrammarFacts.BadNumber | readascii.go:104-110 | a number that does not convert in one facet among good ones: every other triangle is appended in order, exactly one "Unable to parse float" is recorded on that word's line, skipped is set and Parse fails |
| GrammarFacts.StrayRound | readascii.go:96-102 | step of `StrayWord`: one loop round over a stray word records one diagnostic on its line and resumes on the next word |
| GrammarFacts.StrayWord | readascii.go:96-114 | a stray word between facets: every triangle is appended in order and exactly one `"facet" or "endsolid" expected` is recorded on its line, yet Parse succeeds |
| GrammarFacts.EmptyFile | readascii.go:89-91 | input with no words sets the header flag, records exactly "File is empty" on the last line, appends nothing and fails |
| GrammarFacts.BadHeader | readascii.go:139-141 | a header without "solid " records one header diagnostic first, takes no name, and fails |
| GrammarFacts.BadHeaderLoop | readascii.go:88-117 | a first worded line, on any line, without "solid ": the header diagnostic on that line, then exactly the triangles and diagnostics of the triangle loop over the rest (it still runs), no name, header flag set, and failure |
| GrammarFacts.BadHeaderFile | readascii.go:88-117 | a file well formed but for its header line: every triangle appended in order, the header diagnostic the only one, and failure |
| Geometry.SelfCounterEdgeMeansEqualVertices | solid.go:398-400 | a triangle holds one of its own edges reversed only if two of its vertices coincide |
| Geometry.HasEqualVertices | solid.go:376 | definition: two of the three vertices coincide |
| EdgeIndex.Sharers | solid.go:301-305 | definition: the indices of the triangles that hold a directed edge |
| EdgeIndex.Insert | solid.go:331-339 | definition: the index added to the edge's set, the set created on first use |
| EdgeIndex.InsertEdges | solid.go:362-365 | definition: a triangle's first edges inserted in order |
| EdgeIndex.Index | solid.go:359-366 | definition: the map after the index-building loop |
| EdgeIndex.SharersAt | solid.go:301-305 | an index is a sharer of a directed edge iff that triangle holds the edge |
| EdgeIndex.InsertEdgesAt | solid.go:362-365 | inserting a triangle's first edges adds its index exactly under those edges |
| EdgeIndex.IndexAt | solid.go:359-366 | after the index-building loop, an edge is a key iff some triangle holds it, and its set is exactly those triangles |
| EdgeIndex.IndexCorrect | solid.go:359-366 | the same for every edge at once: no other (key, index) pairs are present |
| EdgeIndex.EdgeLookup.constructor | solid.go:307-311 | a new lookup is empty |
| EdgeIndex.EdgeLookup.InsertEdge | solid.go:331-339 | adds the index to the edge's set, creating the set on first use |
| EdgeIndex.EdgeLookup.OtherTrianglesWithEdge | solid.go:315-327 | the set stored under the edge minus i when the edge is present, empty when it is absent; never contains i |
| EdgeIndex.OthersAreSharers | solid.go:315-327 | over the built index, the query is the set of other triangles holding the edge |
| Validation.EdgeError.IsUsedInOtherTriangles | solid.go:285-287 | definition: the same-direction list is not empty |
| Validation.EdgeError.HasMultipleCounterEdges | solid.go:291-293 | definition: more than one counter edge is listed |
| Validation.EdgeError.HasNoCounterEdge | solid.go:297-299 | definition: no counter edge is listed |
| Validation.Item | solid.go:345-350 | definition: the map's record for a triangle, or a fresh one |
| Validation.EdgeRecord | solid.go:263-268 | definition: an edge's finding, or a fresh one when none is recorded |
| Validation.WithSame | solid.go:393-395 | definition: the edge's finding with the same-direction list replaced |
| Validation.WithCounter | solid.go:404-406 | definition: the edge's finding with the counter list replaced |
| Validation.EdgeOutcome | solid.go:389-406 | definition: an edge is recorded iff its same-direction list is non-empty or its counter list is not of size 1, and the counter list is kept only when not of size 1 |
| Validation.EdgeFinding | solid.go:389-406 | definition: `EdgeOutcome` of the other triangles holding the edge and of those holding it reversed |
| Validation.Record | solid.go:373-408 | definition: a triangle's two flags and its three edge findings |
| Validation.Findings | solid.go:371-410 | definition: the records of the first n triangles that have a finding, by index; `Solids.Solid.Validate` is proved equal to it |
| Validation.Prefix | solid.go:386-407 | the record as it stands after the first edges are examined: flags kept, later edges still nil |
| Validation.PrefixAll | solid.go:386-407 | after all three edges the record is complete |
| Validation.Records | solid.go:373-408 | one record per triangle |
| Validation.FindingsAt | solid.go:371-410 | the map has key k iff triangle k has a finding, and then holds both flags and every edge's finding |
| Validation.IsFresh | solid.go:345-350 | a record is the freshly allocated one iff no flag is set and no edge is recorded |
| Validation.FindingsOfNext | solid.go:373-408 | examining one more triangle adds exactly its entry |
| Validation.ItemFresh | solid.go:345-350 | `item(i)` before triangle i is examined is a fresh record |
| Validation.ItemEntry | solid.go:345-350 | `item(i)` while triangle i is examined yields its record so far |
| Validation.FlagStep | solid.go:376-383 | the two flags are set exactly when the triangle is degenerate or its normal does not match |
| Validation.EdgeUpdate | solid.go:389-406 | the two updates of an edge store the same-direction sharers iff there are any, and the counter list iff its size is not 1 |
| Validation.PrefixStep | solid.go:386-407 | examining edge e fills in that edge's finding only |
| Validation.EntryUpdate | solid.go:389-406 | the same two updates through `item` on the map |
| Validation.EdgeStep | solid.go:386-407 | examining edge e extends the triangle's map entry by that edge's finding |
| Solids.ToUint32 | solid.go:41-42 | definition: the conversion of a length to `uint32`, modulo 2^32 |
| Solids.Solid.constructor | solid.go:8-22 | the zero Solid |
| Solids.Solid.SetName | solid.go:25-27 | sets the name |
| Solids.Solid.SetBinaryHeader | solid.go:30-32 | sets the binary header |
| Solids.Solid.SetASCII | solid.go:35-37 | sets the ASCII flag |
| Solids.Solid.SetTriangleCount | solid.go:40-55 | with uint32 length and capacity conversions as written: truncates to n triangles if n < len; otherwise keeps the triangles and ensures capacity >= n |
| Solids.Solid.AppendTriangle | solid.go:58-60 | the triangles become the old ones plus t at the end; capacity never shrinks |
| Solids.Solid.Validate | solid.go:357-411 | returns exactly `Validation.Findings` of the triangles (so two calls agree) and modifies nothing |
| Solids.ExamineTriangle | solid.go:373-408 | one pass of the second loop extends the findings map from i triangles to i + 1 |
| ValidationFacts.SharersOf | solid.go:303-305 | sharer membership for every index at once |
| ValidationFacts.EdgeFindingMeaning | solid.go:285-299 | an edge is recorded iff it has a same-direction sharer or not exactly one reversed one; `IsUsedInOtherTriangles` and `HasMultipleCounterEdges` then mean what they say, and `HasNoCounterEdge` means at most one |
| ValidationFacts.NoSelfCounterEdge | solid.go:398-400 | a healthy triangle holds none of its own edges reversed |
| ValidationFacts.LoneEdges | solid.go:397-406 | each edge of an isolated healthy triangle is recorded with empty lists |
| ValidationFacts.LoneTriangle | solid.go:357-411 | an isolated healthy triangle is reported with all three edges lacking a counter edge, and nothing else |
| ValidationFacts.TwinEdges | solid.go:389-395 | every edge of two identical triangles is shared by the other one and reversed by none |
| ValidationFacts.TwinTriangles | solid.go:389-395 | two triangles sharing their edges in the same direction are both reported, each listing the other |
| ValidationFacts.Flipped | solid.go:397-402 | the reversed winding holds every edge reversed |
| ValidationFacts.FlippedSharers | solid.go:389-402 | with two copies and one flipped copy, an edge is held by both copies and reversed only by the flipped one |
| ValidationFacts.CounterEdgeNotRecorded | solid.go:403-406 | an edge with a same-direction sharer and exactly one counter edge is recorded with an empty counter list, so `HasNoCounterEdge` holds |
| ValidationFacts.Tetrahedron | solid.go:357-411 | four faces |
| ValidationFacts.TetrahedronEdge | solid.go:389-406 | in a tetrahedron each edge has no same-direction sharer and exactly one reversed partner, another face |
| ValidationFacts.TetrahedronFace | solid.go:376-406 | no tetrahedron face is degenerate or has an edge finding |
| ValidationFacts.ClosedTetrahedron | solid.go:357-411 | a closed, consistently wound tetrahedron with matching normals gets an empty findings map |

## Left out

- I/O: the input is a sequence of lines, each with its raw text and its whitespace-separated words. The byte stream, `bufio.Scanner` word splitting and the read-error branches of `nextWord` and `nextLine` are not part of this model. Neither is the slice aliasing of the scanned bytes.
- Number conversion (`strconv.ParseFloat(word, 32)`) and `extractASCIIString` are foreign calls. They are parameters (`Grammar.Conversions`): an arbitrary partial function from words to reals, and an arbitrary function on strings. The reduced-precision conversion and carriage-return trimming they perform live inside them.
- Floating point: coordinates are reals compared by exact equality. NaN and signed zeros as map keys are not modelled.
- The regular expressions are modelled as whole-word string equality and set membership (`Keywords`).
- `readAllASCII` is not modelled: it only wraps `Parse`'s error text in an error value.
- `hasEqualVertices` is defined from exact vertex equality (`Geometry.HasEqualVertices`). `checkNormal(HalfPi)` is a float angle test, so it is the parameter `normalMatches` of `Validate`.
- `OtherTrianglesWithEdge` and the `EdgeError` lists: Go map iteration order is unspecified, so they are sets of indices, not ordered slices.
- Pointer identity of the records: `TriangleErrors` and `EdgeError` are values in the findings map, updated through `item` and `edge` as functions on values. Aliasing of the returned pointers is not modelled.
- `parseFacet`'s chain of `&&` is split into `ParseLoop`, `ParseVertices` and `ParseVertex`, and `Parse`'s body into `HeaderOrEmpty`, `ParseBody`, `RunTriangleLoop`, `TriangleLoopRound`, `ReportStray`, `FacetRound` and `CheckEndAndReport`. Each runs the same steps in the same order. The grouping only gives each proof a small frame.
- `Measure`, `Transform`, `TransformNR`, `RecalculateNormals`, `Scale`, `Stretch`, `ScaleLinearDowntoSizeBox`, `Translate`, `IsInPositive`, `MoveToPositive`, `scaleDim` and `Rotate` in `solid.go` are not modelled. They are float and matrix arithmetic over files that are not part of this model.
- `ray.go` is not part of this model: it is floating-point ray intersection.
- Solids.Solid.SetTriangleCount: capacity is a number. The reallocation and copy of the backing array are not modelled beyond the resulting contents.
- GrammarFacts.BadNumber: takes the number conversion to reject the words `facet` and `endsolid`, as `strconv.ParseFloat` does; the conversion is a parameter, so this is stated rather than derived.
- Solids.Solid.SetBinaryHeader: stores the header as a value. Go keeps the caller's slice (solid.go:31), so later writes through that slice also change the header; that aliasing is not modelled.
