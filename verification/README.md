# Documentation Organizer — a Dafny model of its sectioning and aggregation core

Documentation Organizer reads one HTML page of API documentation. It cuts the page into
titled sections at its headings and sends each section to a language-model classifier,
which returns a structured record (`section_type`, `related_endpoints`, `filename`,
`content`). It then writes each record's content to a file in a subdirectory chosen by
the record's type. This project models the logic in `doc_organizer.py`:

- `HTMLParser.split_into_sections` (module `Sectioning`). This is one left-to-right
  pass over the direct children of `<body>`. Every `h1`, `h2` or `h3` child closes the
  open section and opens a new one titled with its stripped text. Any other child's
  string form is appended to the open section. Only a non-empty title counts as "open".
  The pass is the fold `Split`. The lemma `SplitMatchesReference` proves it equal to an
  independent definition, `Reference`: one section per heading child with non-empty
  text, in document order. Each such section holds that heading's text and the string
  forms of the children between it and the next heading, joined with no separator.
- The per-section loop of `DocumentationOrganizer.process_file` (module `Organizer`).
  Every section is classified, failed classifications are dropped, and the successes
  are kept in section order.
- The directory choice of `FileGenerator.generate_files`: type `t` goes to `t + "s"`,
  except that `other` goes to `overview`.

Parsed HTML is abstract. A `Node` holds a child's tag name (`None` for text and
comments), its stripped text and its string form. These are the values BeautifulSoup's
`name`, `get_text().strip()` and `str()` would give. The classifier is a parameter
`Section -> Option<Record>`.

Notable behaviour of the code, all of it modelled as written:

- Heading levels are ignored.
- Sections are flat siblings.
- A parent section does not include its subsections' text.
- An empty-titled heading drops the children that follow it, even when there are some.
- A record of type `overview` goes to `overviews`, which is not `overview`.

## Model

| member | source | states |
|---|---|---|
| Sectioning.Split | doc_organizer.py:19-40 | Definition: the loop over `<body>`'s children followed by the final flush. `SplitMatchesReference` characterises it. |
| Sectioning.Fold | doc_organizer.py:23-33 | Definition: the loop, one `Step` per child in document order. `FoldFrom` characterises it. |
| Sectioning.Step | doc_organizer.py:24-33 | Definition: one loop iteration. `StepHeading` and `StepContent` characterise it. |
| Sectioning.Flush | doc_organizer.py:25-29 | Definition: appends the current section only when its title is non-empty. Lines 36-40 do the same flush after the loop. `FoldFrom` characterises it. |
| Html.IsHeading | doc_organizer.py:24 | Definition: a child counts as a heading exactly when its tag is `h1`, `h2` or `h3`. `DropsAndMinorHeadings` shows it on inputs: an `h2` is a heading, an `h4` is content. |
| Seqs.Join | doc_organizer.py:28 | Definition of `''.join`: the parts concatenated with no separator. `JoinAppend` characterises it. |
| Organizer.Successes | doc_organizer.py:146-147 | There are at most as many kept values as replies. `SuccessesAt` characterises it fully: the kept values are exactly the present replies, in order. |
| Organizer.Bucket | doc_organizer.py:113-115 | A record goes to `overview` exactly when its type is `other`. `BucketInjective` and `BucketCreatedIff` characterise it. |
| Sectioning.SplitIntoSections | doc_organizer.py:14-42 | A document with no `<body>` fails with `MissingBody`. Otherwise the result is exactly one section per `h1`/`h2`/`h3` child with non-empty stripped text, in order. Each section holds that heading's text and the joined string forms of the children up to the next heading. |
| Sectioning.SplitMatchesReference | doc_organizer.py:19-42 | The fold over `<body>`'s children, with its final flush, equals the per-heading reference definition. |
| Sectioning.FoldFrom | doc_organizer.py:23-40 | From any loop state, the rest of the loop plus the flush gives two parts in order. First comes the open section (if its title is non-empty) extended by the non-heading run that follows. Then come the reference sections of the later headings. |
| Sectioning.StepHeading | doc_organizer.py:24-31 | A heading child flushes the open section, if its title is non-empty, and starts a new section with empty content. This keeps the loop in step with the reference. |
| Sectioning.StepContent | doc_organizer.py:32-33 | A non-heading child extends the open section's content when a title is open, and is ignored otherwise. This keeps the loop in step with the reference. |
| Sectioning.SplitTitles | doc_organizer.py:23-40 | There are as many sections as heading children with non-empty text. The k-th title is the k-th such heading's stripped text, so every title is non-empty. Every such heading appears among the opening positions. |
| Sectioning.NoSectionsIff | doc_organizer.py:19-42 | The result is empty exactly when no `h1`/`h2`/`h3` child has non-empty stripped text. |
| Sectioning.KeptIffGoverned | doc_organizer.py:30-33 | A non-heading child falls inside some section's span exactly when the nearest heading before it exists and has non-empty text. So children before the first heading, or after an empty heading and before the next one, are dropped. |
| Sectioning.GovernedIsKept | doc_organizer.py:30-33 | A child whose nearest preceding heading has non-empty text lies in the span of that heading's section. |
| Sectioning.KeptIsGoverned | doc_organizer.py:30-33 | A child in the span of a section's heading has that heading as its nearest preceding heading, and the heading's text is non-empty. |
| Sectioning.LevelIgnored | doc_organizer.py:24 | Two child lists split identically when they agree on which children are headings, on each heading's text and on each other child's string form. Tag names and a heading's own string form may differ. So relabelling `h1`, `h2` and `h3` changes nothing, and no section nests under another. |
| Sectioning.FoldSameShape | doc_organizer.py:23-33 | The loop reads only whether each child is a heading, a heading's text and a non-heading's string form. |
| Html.NextHeading | doc_organizer.py:23-24 | Returns the first `h1`/`h2`/`h3` child at or after a position, or the end of the body. Every child from the position up to it is a non-heading. While `current_section` is non-empty, the loop appends those children to `current_content`, and this child resets it. |
| Html.LastHeadingBefore | doc_organizer.py:23-24 | Returns the nearest `h1`/`h2`/`h3` child before a position: the heading whose stripped text `current_section` holds when the loop reaches that position. Every child between it and the position is a non-heading. If there is none, no child before the position is a heading. |
| Seqs.JoinAppend | doc_organizer.py:28 | `''.join` of two concatenated lists is the concatenation of their joins. |
| Organizer.ProcessSections | doc_organizer.py:143-147 | Returns at most one record per section. The k-th record is the successful reply for the k-th section whose classification succeeded. Every success is kept, in section order. |
| Organizer.FailureDoesNotStop | doc_organizer.py:68-70 | A section whose classification fails adds nothing. The sections after it are processed as if it were absent. |
| Organizer.RepliesAppend | doc_organizer.py:144-145 | Each section is classified on its own: the replies for a concatenation of section lists are the two lists of replies, concatenated. |
| Organizer.Replies | doc_organizer.py:144-145 | Definition: the classifier's reply for each section, in section order. `RepliesAppend` characterises it. |
| Organizer.SuccessesAt | doc_organizer.py:144-147 | The kept values are exactly the present entries, in their original order. |
| Organizer.SuccessesAppend | doc_organizer.py:144-147 | Each reply is kept or dropped on its own: filtering distributes over concatenation. |
| Organizer.SuccessesOfLift | doc_organizer.py:108-110 | A list with no `None` passes the skip unchanged, so `generate_files` never skips an entry that `process_file` hands it. |
| Organizer.BucketCreatedIff | doc_organizer.py:100-115 | A record's directory is one of the created `endpoints`, `concepts` and `overview` exactly when its type is `endpoint`, `concept` or `other`. |
| Organizer.CreatedDirs | doc_organizer.py:100 | Definition: the three directories made before any file is written, `endpoints`, `concepts` and `overview`. `BucketCreatedIff` characterises it. |
| Organizer.BucketInjective | doc_organizer.py:113-115 | Different section types never share an output directory. |
| Organizer.PluralIsNotOverview | doc_organizer.py:113-115 | No type maps to `overview` by taking the plural, so `overview` is reached only from `other`. |
| Organizer.GenerateFiles | doc_organizer.py:108-120 | Present entries each plan one target, in list order. The target's directory is the bucket of the entry's type, and its name and content are the entry's. Absent entries are skipped. |
| Organizer.TargetOf | doc_organizer.py:113-120 | Definition: the file planned for one record, in the record type's bucket, with the record's filename and content. `GenerateFiles` characterises it. |
| Organizer.ProcessFile | doc_organizer.py:131-150 | A missing body fails. Otherwise the planned files correspond one to one, in order, to the sections whose classification succeeded. Each file is placed by its record's type. |
| Scenarios.IntroPlannedUnderOverviews | doc_organizer.py:113-115 | A body holding `<h1>Intro</h1><p>Hello</p>`, classified as `overview`, plans one target, `intro.md` in `overviews`. That directory is never created, so the actual write would raise. |
| Scenarios.RelabelledHeadingSplitsAlike | doc_organizer.py:24 | An `h1` relabelled as `h2`, with its string form changed to match, gives the same split. |
| Scenarios.NestedHeadingsAreSiblings | doc_organizer.py:24-31 | In a body, an `h2` after an `h1` starts a sibling section, and the `h1` section's content stays empty. |
| Scenarios.DropsAndMinorHeadings | doc_organizer.py:24-33 | Leading text and text after an empty `h2` are dropped. An `h4` is content. |
| Scenarios.MissingBodyFails | doc_organizer.py:23 | A document without `<body>` fails before any classification. |

## Left out

- HTML parsing, `get_text().strip()` and `str(element)` are foreign library code. They are the opaque fields of `Node`.
- The OpenAI call, the prompt text and `json.loads` of the reply (doc_organizer.py:51-89) are a network client. They are the `classify` parameter.
- A reply that decodes to a falsy JSON value (`{}`, `[]`, `0`, `""`, `false`, `null`) is filtered at line 146 exactly like `None`. The model folds such replies into `None`.
- Some truthy replies are not modelled. `generate_files` reads only `section_type`, `filename` and `content`. It raises `KeyError` or `TypeError` when one of these is missing or is not a string. `main` catches the exception at line 170 and prints it, and no later file is written. `related_endpoints` is never read, so a reply without it is written normally.
- GenerateFiles: a `Target` stands for the components given to `os.path.join` at line 118, not for the resulting path. An absolute `filename` or section type discards the earlier components, and a `/` inside `filename` nests the file deeper. Such paths escape the bucket directory. A target whose directory is not one of those created at line 100 (every type other than `endpoint`, `concept` and `other`, by `BucketCreatedIff`) is planned, but the write at line 119 fails and the loop stops there.
- ProcessFile: starts from the parsed document. Reading the input file at lines 136-137 is I/O and is not modelled. A missing file or non-UTF-8 input raises before any parsing.
- `os.makedirs`, opening and writing files (doc_organizer.py:98-120, apart from the directory choice) are I/O. The model stops at the planned `Target` list. So it does not show that writing into the never-created `overviews/` directory raises. `main` catches that error at line 170 and prints it. No later file is written.
- Files that share a directory and filename overwrite each other on disk. This is also I/O and not modelled.
- Logging, `load_dotenv`, the API-key check, `input()` and the final messages in `main` (doc_organizer.py:152-174) are I/O.
- The other variant of the organizer in the repository (`doc_organizer copy.py`) splits differently. It uses `h1` to `h4`, needs content and joins with newlines. It is not part of this model.
- The classifier is a function of the section, so the model cannot show the real service answering two identical sections differently.
