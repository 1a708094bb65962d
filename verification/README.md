# stem templates in Dafny

A model of the stem template engine. A template is text with tags between
delimiters (`{{` and `}}` unless a `{{=L R}}` tag changes them):

- `{{#a}}…{{/a}}`: an array section, walked once per element of `a`;
- `{{+a}}…{{/a}}` / `{{-a}}…{{/a}}`: ifdef / ifndef sections;
- `{{$a}}…{{/a}}`: an object section, walked inside the mapping `a`;
- `{{>a}}`: an include of the template `a` of a set;
- `{{*a}}`: a print of `a`, where `{{*}}` prints the current array element;
- `{{!…}}`: a comment.

The engine lexes the text and parses it into a tree of seven node kinds, at
most 32 sections deep. It can filter the tree's string literals with three
rewrites. It executes the tree against a data map through a symbol table of
nested scopes, writing to a writer. The project also models template sets,
which let templates include each other, and the string equality of data maps.

The project has one module per source file:

| module | file | source |
|---|---|---|
| `Wrappers` | `wrappers.dfy` | `Option` and `Result` |
| `Values` | `values.dfy` | the data a template is executed against: nil, scalars (by their printed form), slices, maps, each nil or not; `fmt.Sprint` of them |
| `Lex` | `lex.dfy` | `lex.go`: the lexer as step functions, and the `Lexer` class whose methods are proved to take exactly those steps |
| `Tree` | `tree.dfy` | `tree.go`: the parser as functions of the token stream, soundness and completeness against the stream a tree spells, and the method `ParseRecurse` driving a `Lexer` |
| `Sym` | `sym.dfy` | `sym.go`: the symbol table |
| `Filters` | `filter.dfy` | `filter.go`: the three rewrites, the flag word and the pass over the tree |
| `Templates` | `template.dfy` | `template.go`: the tree walk as a trace of writes, the `Writer`, the methods `ExecuteRecurse`/`ExecuteNode`, and the `Template` class |
| `Sets` | `set.dfy` | `set.go`: the `Set` class |
| `Eq` | `eq.dfy` | `eq.go`: `stringEqual` as written, and a corrected comparison |

The executor is specified by `RenderNodes`, which gives the writes a walk
makes and why it stops early. `Run` plays those writes against a writer that
accepts a given number of writes and then refuses every one. The methods are
proved to leave the writer, and to return, exactly what `Run` says. Go panics
that data can trigger become error values:
- `Interface()` on a nil value, in `Print` and in `stringEqual`;
- a key missing from the second map in `stringEqual`.

## Model

| member | source | states |
|---|---|---|
| Lex.TagKind | lex.go:49-59 | exactly the nine characters `# = ! / + - > $ *` classify a tag, and none of them as literal text |
| Lex.Init | lex.go:146-154 | a fresh lexer starts at line 1 with delimiters `{{` and `}}`, which are non-empty |
| Lex.IndexOf | lex.go:110 | `strings.Index`: -1 exactly when the pattern does not occur, else the first position where it occurs |
| Lex.IndexOfIs | lex.go:134 | an occurrence with none before it is the one `strings.Index` finds |
| Lex.SplitJoin | lex.go:79 | `strings.Split` on one character gives one more part than separators, no part holds the separator, and joining gives the text back |
| Lex.Delimiters | lex.go:79-87 | a delimiter-change value is accepted exactly when it has one blank and neither starts nor ends with it; the two parts are non-empty and rebuild the value |
| Lex.StringToken | lex.go:109-120 | lexing text emits a token, strictly shortens the input and keeps the delimiters |
| Lex.StringShape | lex.go:109-120 | a string token is non-empty text that does not contain the left delimiter; value + new input = old input; the rest is empty or starts with the left delimiter; the token has the old line; the line then advances by its newlines, unless the text ran to the end |
| Lex.StringFirst | lex.go:109-120 | no occurrence of the left delimiter starts inside the string token, so the token ends exactly at the first occurrence (`strings.Index`), or runs to the end of the input when there is none |
| Lex.TagToken | lex.go:124-143 | lexing a tag never reports the end of input, strictly shortens the input, keeps the delimiters, and reports errors at the tag's name and line |
| Lex.TagEmits | lex.go:126-137 | a tag yields a token exactly when a known classifier follows the left delimiter and a right delimiter follows that |
| Lex.TagShape | lex.go:133-141 | old input = left delimiter + classifier + value + right delimiter + new input; the value holds no right delimiter before its end; the line advances by the value's newlines |
| Lex.TagErrorKind | lex.go:126-137 | an unknown classifier is "unrecognized tag"; nothing after the left delimiter or no right delimiter is "incomplete tag" |
| Lex.RawToken | lex.go:98-106 | `next` reports the end of input exactly on empty input and otherwise strictly shortens the input |
| Lex.NextToken | lex.go:68-96 | `Next` never returns a delimiter-change or comment token, keeps the delimiters non-empty, and never lengthens the input |
| Lex.TagAt | lex.go:124-143 | a well-formed tag at the head of the input is lexed as that tag, and lexing resumes right after it |
| Lex.StringAt | lex.go:109-120 | text up to the next left delimiter, or to the end, is lexed as one string token |
| Lex.DelimiterChange | lex.go:78-90 | after `{{=A B}}` lexing goes on with delimiters `A` and `B`, and no token is returned for the tag |
| Lex.MalformedDelimiters | lex.go:79-87 | any other delimiter-change value fails with "malformed tag" and clears the input |
| Lex.CommentDropped | lex.go:91-92 | a comment is skipped |
| Lex.OtherPassThrough | lex.go:94 | every other step reaches the parser unchanged |
| Lex.Tokens | lex.go:68-96 | successive `Next` calls form a stream of tokens ended by the end of input or an error, with no delimiter change or comment in it |
| Lex.EofStays | lex.go:99-101 | after the end of input, `Next` keeps reporting it |
| Lex.TextStep | lex.go:109-120 | with the default delimiters, text free of `{` is one string token |
| Lex.TagStep | lex.go:124-143 | with the default delimiters, a tag whose value is free of `}` is one token of its classifier's kind |
| Lex.CommentStep | lex.go:91-92 | with the default delimiters, a comment free of `}` is skipped and lexing resumes after it |
| Lex.CommentOnlyTokens | lex.go:68-96 | input that is a single comment yields the end of input at once |
| Lex.Lexer.constructor | lex.go:146-154 | `newLexer` builds the state `Init` describes |
| Lex.Lexer.LexString | lex.go:109-120 | the method updates the fields and returns the token exactly as `StringToken` says |
| Lex.Lexer.LexTag | lex.go:124-143 | the method updates the fields and returns the step exactly as `TagToken` says |
| Lex.Lexer.NextRaw | lex.go:98-106 | the method does exactly what `RawToken` says |
| Lex.Lexer.Next | lex.go:68-96 | the loop applies delimiter changes and skips comments until it returns what `NextToken` says |
| Tree.Section | tree.go:109-142 | array, ifdef, ifndef and object tokens build a section named by the token value around the parsed children |
| Tree.Leaf | tree.go:135-146 | include, print and string tokens build leaves |
| Tree.ParseRec | tree.go:92-96 | what the parser leaves of the token stream is again a token stream, and never longer than what it was given |
| Tree.ParseLoop | tree.go:97-151 | what the loop leaves of the token stream is again a token stream, and never longer than what it was given |
| Tree.RecSuffix | tree.go:92-96 | the parser only reads on: what it leaves is a suffix of the stream it was given |
| Tree.LoopSuffix | tree.go:97-151 | the loop only reads on: what it leaves is a suffix of the stream it was given, through every nested section |
| Tree.LoopOverTrees | tree.go:97-151 | when the stream spells a sibling list within the depth limit, the loop appends those nodes in source order and goes on after their tokens |
| Tree.SectionParses | tree.go:109-142 | the tokens of a section parse to that section's children, closed by the matching end tag |
| Tree.LoopSound | tree.go:97-151 | whatever the loop builds was spelled by the stream, with the open section's end tag after it, and stays within the depth limit; at the top level it stops at the end of input |
| Tree.SectionSound | tree.go:109-142 | a parsed section was read from its opening tag, its children's tokens and its end tag |
| Tree.ParseComplete | tree.go:87-89 | a stream spelling a tree less than 32 sections deep, followed by the end of input, parses to that tree |
| Tree.ParseSound | tree.go:87-89 | a successful parse returns a tree less than 32 sections deep whose tokens, followed by the end of input, are the stream |
| Tree.LoopStops | tree.go:98-122 | after the tokens of a sibling list: a lexer error is passed on unchanged; the end of input closes the top level and fails as "unclosed scope" inside a section; an end tag fails as "unopened scope" at the top level, closes the section when the names match and otherwise fails as "unmatched tag" |
| Tree.DepthExceeded | tree.go:93-96 | section openings nested to depth 32 fail with the depth-limit error, whatever follows them |
| Tree.ParseIfdefExample | tree.go:87-151 | `x{{+n}}y{{/n}}z` parses to a literal, an ifdef section around a literal, and a literal |
| Tree.CommentOnlyExample | tree_test.go:30-34 | a template that is only a comment parses to no nodes |
| Tree.ParseRecurse | tree.go:92-151 | the method returns what `ParseRec` says about the stream the lexer would yield, and leaves the lexer where the parse stopped |
| Tree.ParseTemplate | tree.go:87-89 | `parse` returns `Parse` of the text |
| Sym.FindInnermost | sym.go:42-49 | a lookup returns the binding of the innermost frame that has the key |
| Sym.FindNone | sym.go:75-80 | a lookup finds nothing exactly when no frame has the key |
| Sym.NewSymTab | sym.go:33-37 | one frame holding the data and no array element; lookups see exactly the data |
| Sym.EnterObject | sym.go:63-67 | the object becomes the innermost frame and no element is bound; its keys shadow the outer frames |
| Sym.EnterArrayElem | sym.go:55-60 | the frames stay and the element is bound |
| Sym.Ifdef | sym.go:70-81 | true exactly when the key is empty and an element is bound, or some frame has the key |
| Sym.Ifndef | sym.go:84-86 | exactly the negation of `Ifdef` |
| Sym.Array | sym.go:40-52 | a slice exactly when the innermost binding of the key is a non-nil slice, and then that slice |
| Sym.Object | sym.go:103-115 | a mapping exactly when the innermost binding of the key is a non-nil map, and then that map |
| Sym.PrintSpec | sym.go:89-100 | `Print` gives the bound element for the empty key, else the printed innermost binding, or a panic when that binding is nil; with no binding it gives the empty string |
| Sym.ArrayShadow | sym.go:42-51 | only the innermost frame with the key counts: an outer slice is not found behind an inner binding of another kind |
| Sym.ObjectShadow | sym.go:104-114 | the same shadowing rule for maps |
| Sym.LookupMissing | sym.go:40-52 | an unbound key is neither an array nor an object |
| Sym.EnterObjectIfdef | sym.go:63-81 | inside an object, `Ifdef` holds for its keys and otherwise as outside |
| Sym.EnterArrayElemLookups | sym.go:55-100 | a bound element answers `Ifdef` and `Print` for the empty key; every other key is looked up as before |
| Filters.Collapse | filter.go:26 | `\n+` to `\n` never lengthens the text and keeps its first character |
| Filters.CollapseSpec | filter.go:26 | after `\n+` to `\n` no newline follows a newline, only newlines are removed, and no newline is added |
| Filters.CollapseFixed | filter.go:26 | text without a blank line is unchanged |
| Filters.CollapseIdempotent | filter.go:26 | rewriting twice equals rewriting once |
| Filters.CollapseMeaning | filter.go:26 | `\n+` to `\n` keeps every character except a newline directly after a newline (`CollapseFrom`, decided position by position) |
| Filters.CollapseKeeps | filter.go:50-52 | collapsing keeps the results of the two trims |
| Filters.TrimLeft | filter.go:27 | `\n[ \t]+` to `\n` never lengthens the text |
| Filters.TrimLeftSpec | filter.go:27 | afterwards no newline is followed by a space or tab, only blanks are removed, and every newline is kept |
| Filters.TrimLeftFixed | filter.go:27 | text with no newline followed by a blank is unchanged |
| Filters.TrimLeftIdempotent | filter.go:27 | rewriting twice equals rewriting once |
| Filters.TrimLeftMeaning | filter.go:27 | `\n[ \t]+` to `\n` keeps every character except a space or tab with a newline before it and only blanks in between (`TrimLeftFrom`) |
| Filters.TrimRight | filter.go:28 | `[ \t]+\n` to `\n` never lengthens the text |
| Filters.TrimRightSpec | filter.go:28 | afterwards no space or tab is followed by a newline, only blanks are removed, and every newline is kept |
| Filters.TrimRightFixed | filter.go:28 | text with no blank followed by a newline is unchanged |
| Filters.TrimRightIdempotent | filter.go:28 | rewriting twice equals rewriting once |
| Filters.TrimRightMeaning | filter.go:28 | `[ \t]+\n` to `\n` keeps every character except a space or tab with a newline after it and only blanks in between (`TrimRightRef`) |
| Filters.TrimRightKeeps | filter.go:47-49 | the right trim keeps the result of the left trim |
| Filters.Rewrite | filter.go:44-52 | the rewrite never lengthens a literal |
| Filters.RewriteSpec | filter.go:44-52 | each set flag's property holds after all three rewrites, whatever other flags are set, and no newline is added |
| Filters.RewriteNone | filter.go:44-52 | with no flag set a literal is unchanged |
| Filters.RewriteIdempotent | filter.go:44-52 | filtering a literal twice with the same flags equals filtering it once |
| Filters.FilterTree | filter.go:32-55 | the filtered sibling list has as many nodes as before |
| Filters.FilterShape | filter.go:32-55 | filtering keeps the tree's shape, every section name and every include and print node; each literal becomes its rewrite |
| Filters.FilterNone | filter.go:32-55 | with no flag set the tree is unchanged |
| Filters.FilterPass | filter.go:32-55 | the pass that overwrites literals and descends into sections yields `FilterTree` |
| Filters.CollapsePlain | filter.go:26 | text without newlines passes through `\n+` to `\n` untouched |
| Filters.TrimLeftPlain | filter.go:27 | text without newlines passes through `\n[ \t]+` to `\n` untouched |
| Filters.TrimRightPlain | filter.go:28 | text without blanks passes through `[ \t]+\n` to `\n` untouched |
| Filters.BlankLinesExample | filter_test.go:18-23 | `foo\n\nbar` becomes `foo\nbar` under NoBlankLines, for any newline-free `foo` and `bar` |
| Filters.LeftSpaceExample | filter_test.go:24-29 | `foo\n bar` becomes `foo\nbar` under TrimLeftSpace |
| Filters.RightSpaceExample | filter_test.go:30-35 | `foo \nbar` becomes `foo\nbar` under TrimRightSpace |
| Templates.Writer.Write | template.go:71-77 | a write is accepted and appended while the writer has room, and otherwise refused with nothing changed |
| Templates.ExecuteRecurse | template.go:24-83 | the writer ends up, and the result is, what `Run` of the walk's trace says |
| Templates.ExecuteNode | template.go:26-80 | the same for one node: array elements in index order (maps entered as objects, everything else as the element), ifdef/ifndef, includes, objects, prints and strings |
| Templates.RunThen | template.go:25-82 | running two walks one after the other runs the first, then the second from where the first left the writer, unless the first stopped |
| Templates.RunOutput | template.go:71-77 | a writer with room gets every write and the walk ends as its trace does; otherwise the writes before the refused one stay written and the walk ends with the write error |
| Templates.ThenAssoc | template.go:25-82 | sequencing walks is associative |
| Templates.RenderConcat | template.go:25-82 | the output of a node list is each node's output in order |
| Templates.IfdefIfndefExclusive | template.go:43-54 | for any name exactly one of an ifdef and an ifndef section walks its body, and the ifdef one does so when the name is defined |
| Templates.IncludeMissing | template.go:55-62 | an include without a set or of an unknown name writes nothing |
| Templates.IncludeFound | template.go:55-62 | an include of a known name walks that template's tree with the caller's table |
| Templates.NoLibraryNodes | template.go:120-122 | without a set, includes are no-ops, so the walk never runs out of fuel and does not depend on it |
| Templates.FuelNodes | template.go:55-62 | a walk that does not run out of fuel gives the same trace with more fuel |
| Templates.IfdefExamples | template_test.go:18-28 | `0{{+a}}1{{/a}}2` writes `012` and `0{{-a}}1{{/a}}2` writes `02` when `a` is defined |
| Templates.IfdefSourceExample | template_test.go:18-22 | the text `0{{+a}}1{{/a}}2`, parsed and executed, writes `012` |
| Templates.ObjectNestExample | template_test.go:44-50 | `{{$a}}{{$a}}{{*b}}{{/a}}{{/a}}` finds the inner `a` in the outer frame and writes `0` |
| Templates.ArrayExample | template_test.go:63-69 | `{{#a}}{{*}}{{/a}}` over `[0, 1]` writes `01` |
| Templates.ArrayObjectExample | template_test.go:52-61 | `{{#a}}{{*b}}{{/a}}` over two maps writes `01` |
| Templates.PrintNilExample | sym.go:96 | printing a key bound to nil stops the walk with a panic after what was already written |
| Templates.Template.constructor | template.go:91-93 | a new template holds the tree and has the empty name |
| Templates.Template.Parse | template.go:86-94 | a fresh unnamed template holding the parsed tree, or the parse error |
| Templates.Template.Execute | template.go:120-122 | the walk of the tree against a fresh table over the data, with no set |
| Templates.Template.Filter | template.go:134-136 | the tree becomes its filtered form; the name is kept |
| Templates.Template.SetName | template.go:139-141 | only the name changes |
| Sets.Set.constructor | set.go:26-30 | a new set is empty |
| Sets.Set.Add | set.go:34-38 | the template is registered under its name, replacing any previous one; other names are unchanged |
| Sets.Set.Del | set.go:41-45 | the name is forgotten and other names are unchanged; deleting an absent name changes nothing |
| Sets.Set.Lookup | set.go:49-56 | the registered template exactly when the name is registered |
| Sets.Set.Execute | set.go:59-65 | an unregistered name is "not found" with nothing written; otherwise the template's tree is walked against a fresh table with the set for includes |
| Sets.IncludeExample | template_test.go:155-182 | `foo = 0{{>bar}}2` with `bar = 1` writes `012` |
| Sets.SelfIncludeExample | template.go:55-62 | a template that includes itself never finishes: it runs out of any fuel |
| Eq.KindMismatch | eq.go:14-39 | a map or slice never equals a value of another kind, nor one of different nil-ness, nor a map or slice of another size or length |
| Eq.ScalarEq | eq.go:47 | a scalar equals any valid value that prints as its text |
| Eq.NotEqNil | eq.go:47 | nothing compares equal to an invalid value |
| Eq.EntriesEqAll | eq.go:24-29 | without panics, two maps of equal size are equal exactly when every key of the first compares equal, in any visiting order |
| Eq.ItemsEqAll | eq.go:40-45 | without panics, two slices of equal length are equal exactly when they are equal element by element |
| Eq.MapsEq | eq.go:14-29 | two non-nil maps of equal size compare equal exactly when every key of the first does |
| Eq.StrEqRefl | eq.go:10-48 | a value without nil inside equals itself |
| Eq.StrEqSelf | eq.go:10-48 | a value never compares unequal to itself |
| Eq.StrEqShow | eq.go:50-54 | values that compare equal print the same |
| Eq.StringEqualExample | eq_test.go:10-25 | 123 equals "123", byte slices compare item by item and nested maps by their printed leaves |
| Eq.MissingKeyPanics | eq.go:24-27 | a key of the first map missing from the second, or a nil value, makes the comparison panic |
| Eq.NotSymmetric | eq.go:47 | a scalar printed like a slice equals that slice, but not the other way round |
| Eq.EqualIsEquality | eq.go:50-54 | the corrected comparison holds exactly for equal values, so it is total, reflexive and symmetric |
| Eq.EntriesEqualSpec | eq.go:24-29 | the corrected key loop holds exactly when the second map has every key and all values compare equal |
| Eq.ItemsEqualSpec | eq.go:40-45 | the corrected item loop holds exactly when the slices are equal element by element |
| Eq.EqualRefines | eq.go:10-48 | the corrected comparison rejects whatever the original rejects, and on values without nil accepts only what the original accepts |
| Eq.EqualExamples | eq.go:24-27 | the inputs that trip the original compare unequal, in both directions |

## Left out

- JSON: `ExecuteJSON` (template.go:125-131, set.go:68-78) decodes JSON through a library and is not modelled. As written, set.go:74 passes `data` rather than `&data` to `json.Unmarshal`, so `Set.ExecuteJSON` always fails.
- Files: `ParseFile` and `TemplateName` (template.go:97-108, 144-146) read a file and take a path's base name.
- `MustParse` (template.go:111-117) only turns a parse error into a panic.
- Pretty-printing of tokens and nodes (lex.go:157-187, tree.go:58-84) is not modelled. Error messages are reduced to error kinds, plus the template name and line for lexer errors.
- Locking: the set's `RWMutex` (set.go:15, 35-36, 42-43, 50-51) is not modelled; the set is a plain map field.
- Reflection: data is the closed datatype `Value`. A scalar is represented by its `fmt.Sprint` text, so float formatting and the printing of other Go types are not modelled. `indirect` is the identity on these values.
- Go slice aliasing: `EnterObject` appends to the scope slice (sym.go:65) and may share its backing array. The model uses immutable sequences.
- Map iteration: `stringEqual` visits map keys in Go's random order; the model visits them in ascending order. The order matters only when one key compares unequal and another panics.
- Writers: a writer is a string plus the number of writes it still accepts. Partial writes, byte counts and the kinds of I/O error are not modelled.
- Includes: the source recurses into included templates without bound. The model counts nested includes with `fuel` and stops with `OutOfFuel`, which stands for a walk that does not end.
- Filters.FilterPass: the source overwrites string nodes in place through pointers. The model rebuilds the sibling list as a value, and `Template.Filter` assigns it to the template.
- Panics reachable from data (`Interface()` on a nil value; a key missing from the second map in `stringEqual`) are error values. The parser's "programmer error" panics cannot happen and are not modelled.

## Findings

| source | as written | input that shows it | evidently intended | confidence | as-written member | corrected member |
|---|---|---|---|---|---|---|
| eq.go:24-27 | `brv.MapIndex(key)` of a key missing from the second map is an invalid value; comparing it with a scalar calls `Interface()` on it and panics. A nil value panics the same way on line 47. | `StringEqual({"k": "1"}, {"j": "1"})`, or `{"k": nil}` against itself | a key missing from the second map makes the maps differ, and nil equals only nil; `Eq.EqualIsEquality` and `Eq.EntriesEqualSpec` prove this of the correction | high, not executed | Eq.MissingKeyPanics | Eq.Equal |
| eq.go:47 | A scalar on the left is compared with the printed form of a slice or map on the right, but a slice or map on the left never equals a scalar, so the comparison is not symmetric. | `StringEqual({"x": "[1]"}, {"x": [1]})` is true; with the arguments swapped it is false | values of different kinds differ in both orders, as lines 15-17 and 31-33 already decide for maps and slices on the left; `Eq.EqualIsEquality` proves the correction symmetric | medium, not executed | Eq.NotSymmetric | Eq.Equal |
