# GitLab API markdown to OpenAPI paths, in Dafny

This project models the converter in `gen/md_to_schema.py`. The converter reads one page of
GitLab's markdown API documentation and prints the OpenAPI `paths` object it describes. The page
is already parsed into a list of top-level markdown nodes. The model then follows the converter
step by step:

- **Section classifier** (`Sections`). It groups the nodes into operations, one per `##`/`###`
  heading. The marker paragraphs "Supported attributes:", "Example request:" and "Example
  response:" say what the next table or fenced block holds. Each field of an operation is filled
  at most once.
- **Attribute tables** (`Sections`). Each body row with a name gives one attribute; the four cells
  are read by position.
- **Request shape** (`RequestShape`):
  - the URI example gives the HTTP method (from a fixed list) and the URL path, with `:name` runs
    rewritten to `{name}`;
  - the rewritten path gives its `/{name}` path-parameter names;
  - the example request gives its `--form name=...` field names.
- **Parameter classifier** (`Parameters`). Attributes become path parameters, form-body fields or
  query parameters. A path parameter wins over a form field of the same name.
- **Type inferencer** (`TypeInference`). The decoded example response becomes a schema-like
  description.
- **Assembler** (`Assembler`). It builds the operation object, keyed by `"/api/v4" + path` and
  the lower-cased method.
- **Top-level loop** (`Pipeline`). It merges each path item into the `paths` map. Under a known
  path, the new methods are added and a repeated method is replaced.

Python's crashes and exceptions become `Err` results of the `Failures.Error` type, so the run
either yields a whole `paths` map or stops at the first failure:

| error | meaning |
|---|---|
| `MissingTitle` | a section heading without text |
| `MissingTableBody` | an attribute table without body rows |
| `MalformedRow` | a table row too short to read |
| `UnknownMethod` | a method outside the list |
| `MissingPath` | a URI line without a space |
| `InvalidJson` | the example response does not decode |
| `UnsupportedValue` | a float at an inspected position |
| `MissingType` | a parameter without a type |

The loops of `find_first_text`, `parse_attribute`, `parse_operations`, `parse_path`,
`parse_example_request`, `parse_parameter`, `conv_path` and the top level are `method`s with their
loop invariants. Each method's `ensures` ties its result to a function of the inputs. The
functions carry the properties, proved as `ensures` clauses and lemmas. The dict comprehension of
`conv_ty` is a recursive function (`TypeInference.ConvMembers`), as `conv_ty` itself is.

Python dicts are insertion-ordered association lists (`Dicts`):
- `d[k] = v` is `Put`: a known key keeps its place, a new key goes last;
- `d |= e` is `Update`.

Two behaviours of the code are worth spelling out:
- Only exactly "Yes" or "yes" in the required cell marks a parameter required
  (`Parameters.IsRequired`); "YES" does not.
- Attribute tables raise an index error in three cases: a table without body rows, a row without
  cells, and a named row with fewer than four cells. The model reports these as
  `MissingTableBody` and `MalformedRow`.

## Model

| member | source | states |
|---|---|---|
| Text.ConcatEmpty | gen/md_to_schema.py:54-57 | The concatenated text is empty exactly when every fragment is empty. |
| Text.TrimStartFacts | gen/md_to_schema.py:60 | The left strip keeps a suffix of the text, removes only whitespace, and leaves none in front. |
| Text.TrimEndFacts | gen/md_to_schema.py:60 | The right strip keeps a prefix of the text, removes only whitespace, and leaves none at the end. |
| Text.StripFacts | gen/md_to_schema.py:60 | `strip()` gives the part of the text between a whitespace run in front and one at the end. That part neither starts nor ends with whitespace. It is empty exactly when the input is all whitespace. |
| Text.Split | gen/md_to_schema.py:140 | `split("\n")` gives at least one part. The first part is the text before the first separator. No part holds the separator, and joining the parts gives the input back. |
| Markdown.FirstTextFacts | gen/md_to_schema.py:53-62 | `find_first_text` gives nothing exactly when every text fragment is empty. Whitespace-only text gives `""`, not nothing. Otherwise the result has no whitespace at either end. |
| Markdown.WalkFirstText | gen/md_to_schema.py:53-62 | The walk loop, appending each fragment and then stripping, computes exactly `FindFirstText`, whose facts `Markdown.FirstTextFacts` states. |
| Markdown.GetTitle | gen/md_to_schema.py:45-50 | A heading fails with `MissingTitle` exactly when all its text fragments are empty. A whitespace-only title is accepted as `""`. |
| Sections.ParseAttribute | gen/md_to_schema.py:65-81 | The row loop computes exactly `TableAttributes`. No body gives `MissingTableBody`; the first unreadable row gives its error. |
| Sections.AttributesReadIff | gen/md_to_schema.py:68-77 | Reading a table body succeeds if and only if every row is well formed. A well-formed row has a cell, and four cells when its first cell has text. |
| Sections.AttributesFollowRows | gen/md_to_schema.py:69-79 | There is one attribute per row whose first cell has text, in row order. The j-th attribute is what the j-th such row gives. |
| Sections.Step | gen/md_to_schema.py:96-98 | One node either leaves the finished operations as they were or flushes the current operation into them; nothing else can happen to them. |
| Sections.Run | gen/md_to_schema.py:95-131 | Over any node list, every finished operation stays emittable: its URI is present and non-empty. |
| Sections.Scan | gen/md_to_schema.py:97-98 | Every operation `parse_operations` returns has a non-empty URI. |
| Sections.ParseOperations | gen/md_to_schema.py:92-136 | The node loop with its flush at the end computes exactly `Scan`. What `Scan` does at each node is stated both ways by `HeadingOpensOperation`, `MarkerSwitches`, the four `*Fills*` lemmas and `StepInSection`; what it emits is stated by `SectionEmitted`. |
| Sections.StepBeforeSection | gen/md_to_schema.py:104-105 | A node other than a `##`/`###` heading changes nothing before the first section. |
| Sections.RunPreamble | gen/md_to_schema.py:95-105 | Running over a heading-free prefix and then the rest is the same as running over the rest. |
| Sections.PreambleIgnored | gen/md_to_schema.py:95-105 | Nodes before the first section heading do not change the classified operations. |
| Sections.NoSectionNoOperations | gen/md_to_schema.py:92-136 | A document without `##`/`###` headings yields no operations. |
| Sections.StepInSection | gen/md_to_schema.py:107-131 | Inside a section, a marker paragraph only sets the expectation and stores nothing. Any other node changes at most one field: the expected one, only while it is unset, only from a node of the matching kind, and with that node's content or table. The converse, that such a node does fill the field, is stated by the `*Fills*` lemmas. |
| Sections.HeadingOpensOperation | gen/md_to_schema.py:96-102 | A `##`/`###` heading flushes the current operation, keeping it only with a non-empty URI. It opens a new operation titled by the heading's text, with no field set, expecting the URI. A heading without text fails with `MissingTitle`. |
| Sections.MarkerSwitches | gen/md_to_schema.py:107-119 | Inside a section, a marker paragraph sets the expectation it names and changes nothing else. |
| Sections.FenceFillsUri | gen/md_to_schema.py:125-127 | A fence while the URI is expected and unset becomes the URI, and nothing else changes. |
| Sections.FenceFillsRequest | gen/md_to_schema.py:125-129 | A fence while the example request is expected and unset becomes the example request, and nothing else changes. |
| Sections.FenceFillsResponse | gen/md_to_schema.py:125-131 | A fence while the example response is expected and unset becomes the example response, and nothing else changes. |
| Sections.TableFillsAttribute | gen/md_to_schema.py:121-123 | A table while the attributes are expected and unset is read as the attribute table. A table that cannot be read fails with its error. |
| Sections.SectionEmitted | gen/md_to_schema.py:96-99 | At the next heading or at the end of the document, a section's operation carries the heading's title. Flushing appends it after the operations finished before, exactly when its URI is non-empty. |
| Sections.OneSection | gen/md_to_schema.py:92-136 | A heading followed by its URI fence gives exactly one operation: the stripped title with that URI and no other field. An empty URI gives no operation. |
| Sections.FilledFieldsStay | gen/md_to_schema.py:121-131 | First match wins: until the next heading, the title and every field already set keep their values, and the finished operations are untouched. |
| Sections.EmptyUriDropsSection | gen/md_to_schema.py:96-134 | An empty first URI fence stays the URI until the next heading, blocks later URI fences, and the section is not emitted. |
| Sections.HeadingAfterHeading | gen/md_to_schema.py:96-102 | A heading directly followed by another heading emits no operation for the first. |
| RequestShape.UrlPathOfAbsolutePath | gen/md_to_schema.py:146 | For a path with one leading '/' and no tab, line break or ';', `urlparse(...).path` is a prefix of it. That prefix has no '?' or '#' and ends at the first of them. |
| RequestShape.PlainUrlPath | gen/md_to_schema.py:146 | Such a path without '?' and '#' is its own path component. |
| RequestShape.FirstLine | gen/md_to_schema.py:140 | The line `parse_uri` reads is the first part of `split("\n")`. |
| Text.FirstIndexFound | gen/md_to_schema.py:141 | The search for the first space succeeds exactly when the line holds a space, so `split(" ", 1)` yields a second part exactly then. |
| RequestShape.ParseUriCases | gen/md_to_schema.py:139-147 | Both directions: the method token is outside the seven accepted spellings exactly when the result is `UnknownMethod(token)`. A known token with no space on the first line is exactly the `MissingPath` case. On success the method is the token and the path is the rewritten URL path of the rest of the line. |
| RequestShape.SplitsAtToken | gen/md_to_schema.py:140-141 | A line "token rest" splits into that token and that rest. |
| RequestShape.OnlyFirstLineCounts | gen/md_to_schema.py:140 | Lines after the first line do not change the result. |
| RequestShape.UnknownToken | gen/md_to_schema.py:143-144 | Every token outside the list fails, whatever follows it. This includes "OPTIONS", "CONNECT" and lower-case spellings. |
| RequestShape.MethodWithoutPath | gen/md_to_schema.py:141-146 | A known method alone on the line fails with `MissingPath`. |
| RequestShape.ParseUriOfPlainPath | gen/md_to_schema.py:139-147 | "METHOD /path" with a plain absolute path yields the method and `RewriteParams(path)`. |
| RequestShape.RewriteSkipsPlainText | gen/md_to_schema.py:147 | Text without ':' passes through the `:name` rewrite unchanged. |
| RequestShape.RewriteGivesTemplate | gen/md_to_schema.py:147 | For well-formed segments, rewriting a documented path `/a/:id/b` gives the template `/a/{id}/b`. |
| RequestShape.PathParamsNamed | gen/md_to_schema.py:153-154 | Every collected name is non-empty and contains no '}'. |
| RequestShape.ParsePath | gen/md_to_schema.py:150-156 | The match loop computes exactly `PathParams`. |
| RequestShape.ScanReadsTemplate | gen/md_to_schema.py:153-154 | Scanning a template gives its placeholder names, in order. |
| RequestShape.PlaceholderRoundTrip | gen/md_to_schema.py:147-156 | Round trip: rewriting a documented path and then collecting its `/{name}` groups gives back the `:name` placeholders, in order and with repeats. |
| RequestShape.FieldAfterFlag | gen/md_to_schema.py:165 | A group captured right after the `--form ` flag is non-empty, has no '=', and is shorter than the text after the flag. |
| RequestShape.FieldAfterQuote | gen/md_to_schema.py:165 | After the flag, `'name=value` captures `name`, for any non-empty name without '='. |
| RequestShape.FieldWithoutQuote | gen/md_to_schema.py:165 | After the flag, `name=value` captures `name`, for any non-empty name without '=' that does not start with a quote. |
| RequestShape.QuoteBeforeEquals | gen/md_to_schema.py:165 | After the flag, `'=value` captures the quote itself: the optional quote gives way so that the group is non-empty. |
| RequestShape.FieldAfterFlagFails | gen/md_to_schema.py:165 | Both directions: nothing is captured right after the flag exactly when no '=' follows it or the '=' comes first. |
| RequestShape.SearchFormField | gen/md_to_schema.py:165-166 | A field found anywhere in a line is non-empty and has no '='. |
| RequestShape.SearchFinds | gen/md_to_schema.py:165 | Both directions: `re.search` finds a field exactly when, at some position, the line has the `--form ` flag followed by a capturable field. |
| RequestShape.SearchTakesLeftmost | gen/md_to_schema.py:165-166 | The field found is the one captured at the leftmost position where the pattern matches. |
| RequestShape.FieldsOfLines | gen/md_to_schema.py:164-166 | There is at most one field per line, each non-empty and free of '='. |
| RequestShape.MatchingLines | gen/md_to_schema.py:164-165 | The lines in which a field is found, as increasing positions: each listed line has a field, and every line with a field is listed. |
| RequestShape.FieldsFromMatchingLines | gen/md_to_schema.py:164-166 | There is one field per line that has one. The j-th field is the one `re.search` finds in the j-th such line. |
| RequestShape.FieldsOfLinesAppend | gen/md_to_schema.py:164-166 | The fields of two runs of lines are the fields of each, in line order. |
| RequestShape.ParseExampleRequest | gen/md_to_schema.py:159-168 | The line loop computes exactly `FormFields`: `[]` for no example, otherwise `FieldsOfLines` of the `split("\n")` lines. Which field each line gives is stated by `SearchFinds`, `SearchTakesLeftmost` and `FieldsFromMatchingLines`. |
| Parameters.Classify | gen/md_to_schema.py:180-193 | Exactly one of the two lists gets the attribute. It goes to the body if and only if its name is not a path parameter but is a form field. The kind is path if and only if the name is a path parameter. Name, description and type are copied, and required holds exactly for "Yes"/"yes". |
| Parameters.Partition | gen/md_to_schema.py:180-195 | The two lists together have as many entries as there are attributes. |
| Parameters.ParseParameter | gen/md_to_schema.py:171-195 | The loop with its early `continue` computes exactly `SplitAttributes`: no attributes or an empty table gives `([], [])`. |
| Parameters.PartitionAppend | gen/md_to_schema.py:180-195 | Classifying a concatenation is classifying each part, so neither list is reordered. |
| Parameters.PartitionOne | gen/md_to_schema.py:180-193 | A single attribute is placed by `Classify`. |
| Parameters.PathBeatsForm | gen/md_to_schema.py:182-186 | A name that is both a path parameter and a form field becomes a path parameter, not a body field. |
| Parameters.BodyIsFormOnly | gen/md_to_schema.py:180-186 | The body holds exactly the attributes named only among the form fields, in input order. |
| TypeInference.ConvTy | gen/md_to_schema.py:202-225 | Failure happens if and only if a float sits at an inspected position: the value itself, an array's first element, or any object member. The failure is `UnsupportedValue`. Otherwise the first entry is `"type"` with the kind's schema name: boolean, integer, string (also for null), array or object. A boolean, integer, string or null gets that entry alone. An array has `"items"` next: the description of its first element, or `{"type": "string"}` when it is empty. |
| TypeInference.ConvMembers | gen/md_to_schema.py:219 | The comprehension fails if and only if some member's value holds a float at an inspected position, and the failure is `UnsupportedValue`. |
| TypeInference.ParseExampleResponse | gen/md_to_schema.py:198-228 | No example gives `{}`. An empty example fails as invalid JSON. A decoded example gives a non-empty description. |
| TypeInference.FirstElementDecides | gen/md_to_schema.py:209-216 | A non-empty array is described by its first element alone. |
| TypeInference.LaterFloatIgnored | gen/md_to_schema.py:209-216 | A float after an array's first element does not make the inference fail. |
| TypeInference.NullAndEmptyArray | gen/md_to_schema.py:209-223 | `null` is described as a string is, and `[]` as an array of strings is. |
| TypeInference.PropertiesFollowMembers | gen/md_to_schema.py:217-220 | An object's properties have exactly its keys, and each property is the description of that member's value. |
| TypeInference.PropertiesAreDescriptions | gen/md_to_schema.py:219 | There is one property per member. The i-th property has the i-th member's key and is the description of its value. |
| Assembler.ParamSchema | gen/md_to_schema.py:259-273 | For an already lower-cased type: "string array" and "integer array" become arrays with string or integer items. Any other type gives exactly `{"type": type}`. |
| Assembler.ParamObject | gen/md_to_schema.py:259 | A parameter fails, with `MissingType(name)`, if and only if it has no type to lower-case. |
| Assembler.ParamObjectContents | gen/md_to_schema.py:253-273 | A typed parameter's object has exactly the keys name, in, description, required and schema. They hold its name, its kind, its description (`null` when absent), its required flag, and `ParamSchema` of its lower-cased type. |
| Assembler.ParamObjects | gen/md_to_schema.py:250-274 | Success comes if and only if every parameter has a type, with one object per parameter. Otherwise the error names the first parameter without a type. |
| Assembler.ParamObjectsElementwise | gen/md_to_schema.py:252-261 | On success, the i-th object is the object of the i-th parameter, so the list keeps the parameters' order. |
| Assembler.BodyPropertiesKeys | gen/md_to_schema.py:279-285 | The property keys are exactly the body field names. |
| Assembler.RequiredNames | gen/md_to_schema.py:287-288 | Each body field adds at most one required name. |
| Assembler.ResponsesShape | gen/md_to_schema.py:302-318 | There is exactly one key, "2XX". Its description is "success" when the response description is non-empty and "not provided" otherwise. "content" is present if and only if the response is non-empty. It then has the single media type "application/json", whose "schema" is the inferred response description. |
| Assembler.OperationObject | gen/md_to_schema.py:242-318 | The description is the title. "parameters" is present if and only if there are parameters, and "requestBody" if and only if there are body fields, each with its content. "responses" is always present. |
| Assembler.Layout | gen/md_to_schema.py:242-318 | Looking up "description", "parameters", "requestBody" and "responses" in the operation dict gives back each part, and nothing for an absent optional part. |
| Assembler.ParamList | gen/md_to_schema.py:250-274 | The parameter loop, lower-casing each type and expanding the two array spellings, computes exactly `ParamObjects`. That is one object per parameter in order, with the contents `ParamObjectContents` states, or the error of the first parameter without a type. |
| Assembler.BodyFields | gen/md_to_schema.py:276-288 | The body loop builds exactly `BodyProperties` and `RequiredNames`. |
| Assembler.BuildOperation | gen/md_to_schema.py:242-318 | The assignments, one per present key, build exactly `OperationObject`. |
| Assembler.ConvPath | gen/md_to_schema.py:231-320 | The parameter loop and the body loop compute exactly `PathItem`. |
| Assembler.PathItemFails | gen/md_to_schema.py:250-261 | The assembler fails if and only if some parameter has no type, and it reports the first such parameter. |
| Assembler.PathItemShape | gen/md_to_schema.py:239-320 | The key is `"/api/v4" + path`. The item has one method key, the lower-cased method, holding the operation object. That object has one entry per parameter. |
| Assembler.LastBodyFieldWins | gen/md_to_schema.py:279-285 | The last body field with a name decides that property, and its type cell is kept verbatim, not lower-cased. |
| Assembler.RequiredNamesAreTruthy | gen/md_to_schema.py:287-288 | Both directions: a field with a non-empty required cell is listed, and every listed name comes from such a field. |
| Assembler.NoStillRequired | gen/md_to_schema.py:287-288 | A body field whose required cell is "No" is still listed as required. |
| Dicts.Put | gen/md_to_schema.py:336 | `d[k] = v`: a known key keeps its place and a new key goes last. `k` then maps to `v`, and every other key is unchanged. |
| Dicts.UpdateKeys | gen/md_to_schema.py:334 | `d \|= e` has exactly the keys of both dicts. |
| Dicts.UpdateKeepsOrder | gen/md_to_schema.py:334 | `d \|= e` keeps `d`'s keys first, in their order. |
| Dicts.UpdateKeepsOthers | gen/md_to_schema.py:334 | After `d \|= e`, a key absent from `e` keeps its value from `d`. |
| Dicts.UpdateTakesNew | gen/md_to_schema.py:334 | After `d \|= e`, where `e` has no repeated key, every key of `e` has `e`'s value. |
| Dicts.UpdateKeepsDistinct | gen/md_to_schema.py:334 | `d \|= e` never duplicates a key. |
| Pipeline.MergePath | gen/md_to_schema.py:333-336 | A new path is added last and a known path keeps its place. Every other path keeps its item. |
| Pipeline.MergeUnitesMethods | gen/md_to_schema.py:333-336 | The merged path item's methods are the union of the old methods and the new ones. |
| Pipeline.MergeReplacesMethods | gen/md_to_schema.py:333-334 | A method in the new item replaces the old operation object wholesale. A method not in it keeps its old object. |
| Pipeline.MergeKeepsKeys | gen/md_to_schema.py:333-336 | A merge keeps the paths distinct, and keeps them all under "/api/v4". |
| Pipeline.OperationEntry | gen/md_to_schema.py:325-332 | A successfully converted operation's key starts with "/api/v4". |
| Pipeline.MergeAll | gen/md_to_schema.py:324-336 | Merging all operations keeps every key under "/api/v4" and no key twice. |
| Pipeline.Convert | gen/md_to_schema.py:323-336 | The top-level loop, calling every stage, computes exactly `ConvertSpec`: the classifier's failure first, then each operation in turn. |
| Pipeline.NoSectionsNoPaths | gen/md_to_schema.py:323-336 | A document without a `##`/`###` heading converts to an empty `paths` map. |
| Pipeline.ConvertedPathsRooted | gen/md_to_schema.py:323-336 | Every path in a successful conversion starts with "/api/v4", and no path occurs twice. |

## Left out

- **Markdown parsing** (markdown-it with its front-matter, footnote and table extensions): a
  foreign library. A node is given by what the converter reads from it:
  - the heading markup;
  - the text and inline-code contents in walk order;
  - the table's header row and optional body rows;
  - a fence's content.
- **I/O**: reading the file, `sys.argv`, and printing with `json.dumps`. `Pipeline.Convert`
  returns the `paths` map instead of printing it.
- **`json.loads`**: a foreign parser. It is the `decode` parameter, which must reject the empty
  text. A failure to decode is the opaque `InvalidJson`. A decoded object's members are taken as
  given, so repeated JSON keys, which `json.loads` collapses, are not modelled. A float keeps only
  its kind.
- **`urlparse` validation**: the ValueError raised for unbalanced IPv6 brackets, and the NFKC
  check of a non-ASCII network location, are not modelled. The rest of `urlsplit`/`urlparse` is
  modelled as of current CPython: leading control characters, removed tab and line breaks,
  scheme, network location, fragment, query, and `;params`.
- **`str.lower()`** is modelled on ASCII letters only (`Text.Lower`). Method tokens are ASCII by
  the whitelist, so only non-ASCII letters in a parameter's type cell are affected.
- **Exception messages**: only the kind of failure and its key datum (the token, the value, the
  parameter name) are kept.
- **Operation objects**: an `Operation` is a Python object updated field by field while it is the
  current section. It is modelled as a datatype value, replaced with the field updated. No
  reference to it escapes before its last update, so no aliasing is lost.
- Pipeline.MergeAll: states only that the merged map stays rooted and duplicate-free. What each
  merge step does is stated by `Pipeline.MergePath`, `Pipeline.MergeUnitesMethods` and
  `Pipeline.MergeReplacesMethods`.
- RequestShape.UrlPathOfAbsolutePath: gives the URL path in closed form only for a path with one
  leading '/' and no ';'. Other inputs are computed by `RequestShape.UrlPath`, but nothing is
  proved about them.
- Sections.Step: its own contract states only how the finished operations can change. What a
  heading, a marker, a fence and a table do is stated by `Sections.HeadingOpensOperation`,
  `Sections.MarkerSwitches`, the `*Fills*` lemmas and `Sections.StepInSection`.
- Sections.Scan: its own contract states only that every returned operation has a non-empty URI.
  That each such section is returned, in document order, is stated by `Sections.SectionEmitted`,
  with `Sections.HeadingOpensOperation` for the flush at the next heading.
- RequestShape.FieldAfterFlag: its own contract gives only the shape of the capture. Which text is
  captured is stated by `RequestShape.FieldAfterQuote`, `RequestShape.FieldWithoutQuote`,
  `RequestShape.QuoteBeforeEquals` and `RequestShape.FieldAfterFlagFails`.
- RequestShape.SearchFormField: its own contract gives only the shape of the field. When a field is
  found, and which one, is stated by `RequestShape.SearchFinds` and `RequestShape.SearchTakesLeftmost`.
- RequestShape.FieldsOfLines: its own contract gives only a count bound and the shape. Which line
  gives which field is stated by `RequestShape.FieldsFromMatchingLines`.
- TypeInference.ParseExampleResponse: states the empty and missing cases and that a decoded
  example gives a non-empty description. The description itself is `ConvTy`'s, whose contract
  and lemmas state it.
