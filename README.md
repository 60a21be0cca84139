# ifacegen in Dafny

ifacegen is a `go generate` helper. It reads every Go file of a package and
finds the exported methods whose receiver is a given struct type, by value or
by pointer. It then writes the draft of a Go source file declaring an
interface with those methods, with each method's doc comment, signature and
the imports of the files it came from. This project models that core:

- `TypeExpr` (typeexpr.dfy): rendering a type expression as source text.
  Identifiers, selectors, pointers, slices/arrays and maps are supported, and
  any other node is a panic. `ReadType` is an independent reader of the
  rendered text, and the round trip between the two is proved.
- `Scanner` (scanner.dfy): one parsed file. The non-blank imports become
  import lines. Each exported method declared on the target type becomes a
  `Method` holding its name, its signature text and its doc lines.
  `ParseFieldList`, `ScanDecl` and `ParseFile` are loops proved equal to the
  specification functions `FieldListTexts`, `DeclMethod` and `ScanFile`.
- `Package` (package.dfy): the directory scan. Directories, `_test.go` files
  and generated `.iface.go` files are skipped; every other entry is read and
  parsed, and the first failure ends the scan.
- `Locate` (locate.dfy): finding the name of the type declared at or after
  the `go generate` line.
- `Template` (template.dfy): the aggregation loop of the generator and the
  line layout of the draft it renders.
- `Generator` (generator.dfy): the scan followed by the generation, plus a
  worked example taken from source to draft.
- `Strs` (strs.dfy) and `Outcome` (outcome.dfy): string helpers, and the
  `Option`/`Result` types. `Then` sequences two results, and the first
  failure wins.

Go's parser is not modelled. A parsed file is the `GoAst.File` value the
parser would produce, or `Malformed` when it reports a syntax error. The
directory listing, file contents and the `GOLINE` value are parameters. A Go
panic (an unsupported type expression, indexing an empty slice) is modelled
as a `Fail` result, because it ends the run with no output, as an error
would.

Four behaviours of the code worth knowing:

- Fixed-size arrays `[N]T` are not rejected. `ParseExpr` never looks at the
  length, so they render as `[]T` (`TypeExpr.ArrayLengthIgnored`).
- The aggregate import list is a plain concatenation, one line per import per
  file, with no de-duplication (`Template.AllImportsCount`). Merging
  duplicates is left to goimports, which is outside the model.
- Any non-skipped entry is parsed as Go, not only `.go` files. So a `go.mod`
  beside the sources makes the scan fail (`Package.NonGoFileAborts`).
- The receiver of every exported method is rendered before it is compared
  with the target type. So an exported method on some other generic type
  (`func (l List[E]) Len() int`) ends the run, even though that method would
  never be part of the interface (`Scanner.ForeignReceiverAborts`).

## Model

| member | source | states |
|---|---|---|
| TypeExpr.ParseExpr | ast.go:100-115 | The rendering succeeds exactly when every node of the expression is an identifier, selector, pointer, array or map; otherwise it fails with an unsupported-node error |
| TypeExpr.RoundTrip | ast.go:100-111 | For every expression the Go parser can produce from a type (non-empty names, selectors on package names, pointers, slices, maps), the rendered text reads back as exactly that expression with no text left over, so rendering loses no information |
| TypeExpr.ArrayLengthIgnored | ast.go:108-109 | An array's length never affects its rendering: every `[N]T` renders exactly as `[]T` does |
| Strs.TrimStarIff | ast.go:55 | A receiver type matches the struct name after removing one leading `*` exactly when it is `*S`, or it is `S` and `S` itself has no leading `*` |
| Scanner.ImportLinesAppend | ast.go:39-48 | The import lines of consecutive imports follow one another, so the lines keep the order of the imports |
| Scanner.ImportLinesIff | ast.go:39-48 | A line is produced exactly when some import that is not a blank (`_`) import renders to it, as `alias path` or as `path` |
| Scanner.SplitImportLineInverse | ast.go:40-47 | An import line splits back at its first space into the alias and the path it was made from, so no two imports render to the same line |
| Scanner.CollectImports | ast.go:39-48 | The import loop returns the import lines of the file's imports, in order, blank imports left out |
| Scanner.FieldTextsAt | ast.go:77-90 | The field texts succeed exactly when every field's type is supported. They then hold one entry per field, in order, each being the field's names joined by `, `, a space, and the field's type. A failure is always an unsupported-node error |
| Scanner.ParseFieldList | ast.go:77-90 | The loop returns the field texts of the list, and an empty list for an absent one |
| Scanner.DeclMethodSpec | ast.go:50-73 | A declaration yields a method exactly when it is an exported method whose receiver is `S` or `*S` and whose type parameter, parameter and result types are all supported. It fails exactly when it is an exported method whose receiver list is empty or whose receiver type is unsupported, whatever type it names, or whose receiver is on `S` while a type parameter, parameter or result type is unsupported. A yielded method has the declaration's name, the signature `name(params) (results)` and the doc lines verbatim |
| Scanner.TypeParamsIgnored | ast.go:61-65 | Type parameters are rendered but never used: two declarations that differ only in their renderable type parameters yield the same method |
| Scanner.ScanDecl | ast.go:51-72 | The per-declaration step of the loop, including its doc-line copy, equals `DeclMethod` |
| Scanner.FileMethodsAppend | ast.go:50-73 | Scanning consecutive declaration lists is the two scans one after the other: methods keep declaration order, and the first failure wins |
| Scanner.FileMethodsFailIff | ast.go:50-73 | A file's scan fails exactly when one of its declarations fails |
| Scanner.FileMethodsMember | ast.go:50-73 | When a file's scan succeeds, a method is in the result exactly when some declaration of the file yields it |
| Scanner.FilteredOutIgnored | ast.go:50-53 | A declaration that `isExportedMethod` (ast.go:92-98) rejects (a general declaration, a free function or an unexported method) can be inserted anywhere in a file without changing its scan: it adds no method and cannot make the scan fail |
| Scanner.ScannedNamesExported | ast.go:92-98 | Every method that a successful file scan returns has an exported name, one starting with an upper-case letter |
| Scanner.ForeignReceiverAborts | ast.go:51-57 | An exported method whose receiver list is empty or whose receiver type cannot be rendered makes the scan of its whole file fail, whatever type it is declared on and whatever type is targeted |
| Scanner.ParseFile | ast.go:26-75 | A parse error is returned as is. Otherwise the result is the file's package name, its non-blank import lines in order, and the methods of its declarations, or the first failure among them |
| Package.ParsePackage | ast.go:117-140 | The loop returns the failure of the directory listing, or the scan of every entry in order, ending at the first entry that cannot be read or parsed |
| Package.PackageFilesAppend | ast.go:121-139 | Scanning consecutive listings is the two scans one after the other, so files keep listing order |
| Package.PackageFilesFailIff | ast.go:121-139 | The scan fails exactly when some non-skipped entry cannot be read or parsed, or yields a failing declaration |
| Package.PackageFilesKept | ast.go:121-139 | When the scan succeeds there is exactly one scanned file per non-skipped entry, in listing order, the k-th being that entry's scan |
| Package.DefaultOutputSkipped | main.go:47-49 | The default output file name of the struct ends in `.iface.go`, so the scanner skips it |
| Package.RerunUnaffected | ast.go:122-128 | A draft generated earlier, left in the directory under its default name, changes nothing in a later scan |
| Package.NonGoFileAborts | ast.go:122-136 | A `go.mod` after readable sources is not skipped, and its parse error ends the whole scan |
| Locate.GetStructName | ast.go:142-164 | A parse error gives the empty name. Otherwise the first general declaration that has no specs, or whose first spec is a type spec at or after the `go generate` line, decides: its type's name, or an index failure when it has no specs. When no declaration qualifies the name is empty |
| Template.GenerateFile | template.go:31-47 | The loop gathers every file's imports and methods in order. No files is an index failure; otherwise the draft uses the first file's package name |
| Template.AllImportsAppend | template.go:32-37 | Aggregate imports of consecutive files follow one another |
| Template.AllImportsCount | template.go:32-37 | The aggregate has exactly as many import lines as all files together, duplicates included, and a line is in it exactly when it is in some file's imports |
| Template.AllMethodsAppend | template.go:32-37 | Aggregate methods of consecutive files follow one another |
| Template.AllMethodsMember | template.go:32-37 | A method is in the aggregate exactly when it is in some file's methods |
| Template.BodyLinesAppend | template.go:21-28 | The interface body lines of consecutive methods follow one another |
| Template.BodyLinesAt | template.go:21-28 | The k-th method's doc lines and then its signature come right after the lines of the methods before it, and right before those of the methods after it |
| Template.DraftLayout | template.go:10-29 | For at least one file the draft is: the generated-code header, `package` with the first file's package, `import (`, each import line, `)`, the interface line, the body lines, and `}` |
| Generator.Run | main.go:56-63 | The command scans the package and generates the draft from the scanned files, propagating the first failure |
| Generator.MethodsFromTarget | ast.go:50-73 | Every method in the aggregate comes from a non-skipped, parsed entry, through a declaration on the target type that yields exactly that method |
| Generator.TargetMethodsCollected | ast.go:50-73 | Conversely, when the scan succeeds, every method that a declaration of a non-skipped entry yields is in the aggregate, so the interface holds exactly the target's exported methods with renderable signatures |
| Generator.NothingToScanFails | template.go:42 | When every entry is skipped, the generator fails on the empty file list instead of producing output |
| Generator.GetOnlyExample | ast.go:26-75 | For one file with a documented exported method `Get(id string) (string, error)` on `T`, an unexported method and a blank import, the draft holds the `fmt` import and Get's doc line and signature, and nothing else |

## Left out

- Go's parser (`parser.ParseFile` and the `token.FileSet`) is not modelled. Its result is an input: a `GoAst.File`, or `Malformed` with the error message.
- `os.ReadDir`, `os.ReadFile`, `os.WriteFile`, `os.Getenv("GOLINE")` and `strconv.Atoi` are not modelled. The listing, each file's contents and the line number are parameters, and writing the output file is not modelled. The listing is taken in the order given; the sorting by name that `os.ReadDir` does is not modelled.
- `imports.Process` (goimports) is not modelled, so neither is its formatting, import pruning or merging. The model stops at the draft before it, and `Template.GenerateFile` returns that draft as lines.
- Template.DraftLayout: the draft is modelled as a list of lines that differs from the template's output in three ways. The template's indentation and blank lines are dropped. A multi-line `/* */` doc comment is one element of the list, where the template writes it over several lines. The newlines that the `-}}` trim markers remove are not modelled: in the real draft the closing `}` follows the last signature on the same line (`type I interface {}` when there are no methods), while the model puts `}` on a line of its own.
- Template execution errors are not modelled. The template and the data it is given are fixed and are written to an in-memory buffer, so no execution error is reachable.
- The command-line layer (cobra flags, the required-struct-name check, `log.Fatal`, debug output) is not modelled.
- Strs.IsExported: only ASCII `A`–`Z` count as upper case. Go's `unicode.IsUpper` also accepts non-ASCII upper-case letters.
- Scanner.Method: the `*Method` pointers of the source are modelled as values. Nothing mutates a method after it is built, so no aliasing is observable.
- Expression kinds other than the five supported ones are modelled by one `OtherExpr` node that keeps only the node's kind, because the source rejects them all alike.
- A panic is modelled as a failure result: `Unsupported` for the unsupported-expression panic, and `IndexOutOfRange` for indexing an empty receiver list, an empty spec list or an empty file list.
