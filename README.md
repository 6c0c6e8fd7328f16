# LayLa scaffold, modelled in Dafny

LayLa (LAYer LAmbda) initialises an AWS SAM application that builds a custom
Lambda layer. Building a `LayLa` object calls `make_app`. `make_app` creates
the target directory and its `contents` directory when they are missing, then
writes five files:

- an empty `contents/__init__.py`;
- a handler `contents/layla_lambda.py` that imports every library of the
  layer;
- `contents/requirements.txt`, listing the libraries;
- `samconfig.toml`, with the stack, bucket and region of the deployment;
- `template.yaml`, a CloudFormation template that declares a function
  `LaylaLambda<safe name>` and a layer `LaylaLayer<safe name>`.

The texts come from `format_code`, which is `textwrap.dedent` followed by
`str.strip`. The template ids use the safe name, which is the layer name
title-cased with its underscores removed.

The project has six modules:

- `Strings` (strings.dfy): Python's `strip`, `split('\n')` and
  `'\n'.join`, `replace(c, '')` and ASCII `title()`, with their laws.
- `Textwrap` (textwrap.dfy): `textwrap.dedent` over lines. Whitespace-only
  lines are emptied, the longest common margin of spaces and tabs is found,
  and it is cut from every line.
- `Readers` (readers.dfy): small readers for the generated texts. They find
  the lines of a text, the value of a `key = value` setting, and the
  resource ids of a template. They are used to state what the texts say.
- `SafeNames` (safe_names.dfy): `safe_name`.
- `Layla` (layla.py's text builders, layla.dfy): the handler,
  requirements, configuration and template texts. Each is written as the
  source writes it: a triple-quoted literal indented by twelve spaces, then
  `format_code`. Lemmas prove what `format_code` leaves of it.
- `Scaffold` (scaffold.dfy): the five files as a map from relative path to
  text. It also has the `LayLa` class, whose constructor and `make_app`
  create directories and write those files on a `Disk` object.

## Model

| member | source | states |
|---|---|---|
| Layla.FormatCode | layla.py:8 | `format_code` returns a text with no whitespace at either end, empty exactly when the dedented text is all whitespace |
| Strings.Strip | layla.py:8 | `strip()` returns a text no longer than its input, with no whitespace at either end, empty exactly when the input is all whitespace |
| Strings.StripUnique | layla.py:8 | stripping whitespace-padded trimmed text gives back exactly that text, however much padding there was |
| Strings.StripPadded | layla.py:8 | whitespace added at either end does not change what `strip()` returns |
| Strings.TrimStart | layla.py:8 | the leading whitespace removed is all whitespace, and the result is a suffix that starts visibly |
| Strings.TrimEnd | layla.py:8 | the trailing whitespace removed is all whitespace, and the result is a prefix that ends visibly |
| Textwrap.Margin | layla.py:8 | the margin is absent exactly when every line is blank, and is otherwise a prefix of the indentation of every non-blank line |
| Textwrap.MarginGreatest | layla.py:8 | every common prefix of the indentations of the non-blank lines is a prefix of the margin (it is the longest one) |
| Textwrap.CutMarginAt | layla.py:8 | cutting the margin keeps an emptied blank line empty; a non-blank line is the margin followed by what is kept, what is kept is still non-blank, and its indentation is the rest of the old indentation |
| Textwrap.DedentLineAt | layla.py:8 | after dedent a blank line is empty, a line that starts with the margin loses it, and any other line is unchanged |
| Textwrap.DedentCommonIndent | layla.py:8 | when every non-blank line is indented by at least `m` and one by exactly `m`, dedent cuts exactly `m` from every non-blank line |
| Textwrap.DedentFlush | layla.py:8 | when one line starts flush, dedent only empties the blank lines |
| Textwrap.DedentLines | layla.py:8 | computes `textwrap.dedent` on lines: blank lines emptied, then the margin cut; it keeps the number of lines. Meaning: Textwrap.DedentLineAt, Textwrap.DedentCommonIndent, Textwrap.DedentLeavesNoMargin |
| Textwrap.Dedent | layla.py:8 | computes `textwrap.dedent` on a text: DedentLines on its lines, joined back. Meaning: Textwrap.DedentText |
| Textwrap.DedentText | layla.py:8 | the lines of the dedented text are exactly the dedented lines of the text |
| Textwrap.DedentLeavesNoMargin | layla.py:8 | dedented lines have no common margin left |
| Strings.Join | layla.py:82 | computes `sep.join(parts)`; the result starts with the first part. Meaning: Strings.SplitJoin and Strings.JoinSplit |
| Strings.JoinSplit | layla.py:8 | joining the pieces of `split('\n')` gives back the text |
| Strings.SplitJoin | layla.py:139 | splitting the join of newline-free parts gives back the parts |
| Strings.Title | layla.py:100 | computes `title()`, keeping the length. Meaning: Strings.TitleAt |
| Strings.TitleAt | layla.py:100 | `title()` upper-cases a letter that is first or follows an uncased character, lower-cases a letter that follows a cased one, and keeps every uncased character |
| Strings.TitleIdempotent | layla.py:100 | title-casing twice is title-casing once |
| Strings.LowerAllTitle | layla.py:100 | title-casing changes no letter when case is ignored |
| Strings.Remove | layla.py:100 | computes `replace(c, '')`: no `c` is left and the length drops by the number of `c`. Meaning: Strings.RemoveAt |
| Strings.RemoveAt | layla.py:100 | `replace(c, '')` keeps every other character, in order, at its position minus the number of `c` before it |
| Strings.RemoveAbsent | layla.py:100 | removing an absent character changes nothing |
| SafeNames.SafeName | layla.py:100 | the safe name holds no `_`, and its length is the layer name's minus its number of `_` |
| SafeNames.TitleKeepsUnderscores | layla.py:100 | `title()` keeps every `_` in place and adds none |
| SafeNames.SafeNameCaseless | layla.py:100 | ignoring case, the safe name is the layer name with its `_` removed |
| SafeNames.SafeNameAt | layla.py:100 | every other character of the layer name appears in the safe name at its position minus the `_` before it, equal to it ignoring case; it is upper-case exactly when it is a letter that is first or follows an uncased character |
| SafeNames.SafeNameWords | layla.py:100 | words joined by `_` become their safe names run together |
| SafeNames.SafeNameDefault | layla.py:168 | the default layer name `hello-world` becomes `Hello-World` |
| SafeNames.SafeNameUnderscore | layla.py:100 | `hello_world` becomes `HelloWorld` |
| SafeNames.SafeNameCapitalised | layla.py:100 | a word of lower-case letters keeps its letters and has only its first one capitalised |
| SafeNames.SafeNameVisible | layla.py:100 | a layer name without whitespace gives a safe name without whitespace |
| Layla.StaticCode | layla.py:69-79 | computes `static_code`, the handler literal, which opens with the line break after the quotes. Meaning: Layla.HandlerBody |
| Layla.HandlerBody | layla.py:69-79 | `format_code(static_code)` is the fixed handler body, line by line, starting `import json` |
| Layla.ImportBlock | layla.py:82 | for at least one library, all on single lines, the last one non-empty and ending visibly, the joined `import <lib>` lines come out of `format_code` unchanged |
| Layla.LambdaTextEmpty | layla.py:80-84 | with no libraries, the outer literal formats to exactly the handler body |
| Layla.LambdaTextImports | layla.py:80-84 | with at least one library, all on single lines, the last one non-empty and ending visibly, and a handler body whose lines have no line breaks, none whitespace-only, the first starting and the last ending visibly, the outer literal formats to the import lines followed directly by the handler body |
| Layla.LambdaCode | layla.py:80-84 | computes `lambda_code`, a text with no whitespace at either end. Meaning: Layla.LambdaCodeLines |
| Layla.LambdaCodeLines | layla.py:69-84 | the handler file is one `import <lib>` line per library, in order, then the fixed body; with no libraries it is exactly the fixed body |
| Layla.RequirementsText | layla.py:139 | computes the text written to requirements.txt, with no whitespace at either end and empty without libraries. Meaning: Layla.RequirementsLines |
| Layla.RequirementsLines | layla.py:139 | for non-empty single-line libraries with no whitespace at their ends, the requirements split into lines give back the libraries, in order and with duplicates; no libraries give `""` |
| Layla.FormatLiteral | layla.py:8 | `format_code` of a twelve-space-indented literal whose lines have no line breaks, none whitespace-only, and one of which starts flush, is the stripped join of its lines |
| Layla.FormatLiteralExact | layla.py:8 | when the lines also start and end visibly, `format_code` of the literal is exactly their join |
| Layla.LiteralDedent | layla.py:8 | dedent removes exactly the indentation from each line of such a literal and empties its first and last lines |
| Layla.BucketText | layla.py:92 | `str(s3_bucket)` is the bucket name, and is `None` exactly when there is no bucket or the bucket is named `None` |
| Layla.ConfigCode | layla.py:85-98 | computes `config_code`, a text with no whitespace at either end. Meaning: Layla.ConfigText and Layla.ConfigSettings |
| Layla.ConfigText | layla.py:85-98 | when the stack name, bucket text and region have no line breaks, samconfig.toml is the ten lines of the configuration with the stack name, bucket and region substituted |
| Layla.ConfigSettings | layla.py:91-94 | samconfig.toml sets `stack_name` and `s3_prefix` to the quoted stack name, `s3_bucket` to the quoted bucket text, and `region` to the quoted region |
| Layla.ConfigAbsentBucket | layla.py:92 | without a bucket the file says `s3_bucket = "None"`, the same text as for a bucket named `None` |
| Layla.TemplateCode | layla.py:101-130 | computes `template_code`, a text with no whitespace at either end. Meaning: Layla.TemplateText and Layla.TemplateResources |
| Layla.TemplateText | layla.py:101-130 | when the safe name has no line break and ends visibly, template.yaml is the lines of the template, the safe name substituted, without the source's indentation |
| Layla.TemplateIds | layla.py:112-118 | the resource ids under `Resources:` are `LaylaLambda<safe name>` and `LaylaLayer<safe name>`, in that order |
| Layla.LayerNameValue | layla.py:121 | the layer's `LayerName` is the safe name |
| Layla.ContentUriValue | layla.py:123 | the layer's `ContentUri` is `./.aws-sam/build/` followed by the function id |
| Layla.DependsOnValue | layla.py:128 | the layer's `DependsOn` names the function id |
| Layla.TemplateResources | layla.py:99-130 | in template.yaml, the resource ids are the function id then the layer id; `LayerName` is the safe name; `ContentUri` and `DependsOn` name the function id |
| Scaffold.Files | layla.py:64-66 | the scaffold has exactly five paths, and `contents/__init__.py` is empty |
| Scaffold.ScaffoldContents | layla.py:132-150 | each file says what the source writes into it: the handler's imports in order before the body, the requirements in order (empty without libraries), the configuration's settings, and the template's ids and its `DependsOn` |
| Scaffold.HandlerFile | layla.py:132-135 | for single-line libraries, the last one non-empty and ending visibly, `contents/layla_lambda.py` is the import lines followed by the fixed body, whatever the other parameters |
| Scaffold.RequirementsFileLines | layla.py:137-140 | for non-empty single-line libraries with no whitespace at their ends, `contents/requirements.txt` gives back the libraries line by line, or is empty without libraries, whatever the other parameters |
| Scaffold.TemplateFileIds | layla.py:147-150 | when the safe name has no line break and ends visibly, `template.yaml` declares the function and layer ids built from it, and the layer depends on the function, whatever the libraries |
| Scaffold.Placed | layla.py:64 | each file of the scaffold lands at `<root>/<path>` with its text, and nothing else does |
| Scaffold.Created | layla.py:57-62 | the directories created are the root and `<root>/contents`, each only when nothing is there yet |
| Scaffold.Disk.Mkdir | layla.py:59 | `mkdir` adds the directory and changes no file |
| Scaffold.Disk.Write | layla.py:133-135 | writing a file replaces its whole text and changes no directory |
| Scaffold.EnsureDirs | layla.py:57-62 | the directory steps add exactly the created directories and write no file |
| Scaffold.WriteScaffold | layla.py:64-150 | the five writes add the scaffold placed under the root, replacing files already there, and create no directory |
| Scaffold.PlacedScaffold | layla.py:132-150 | the placed scaffold is exactly the five paths under the root with their texts |
| Scaffold.LayLa.MakeApp | layla.py:50-150 | `make_app` sets `newline` to a line break, creates the missing directories and writes the five files of the scaffold under the target directory |
| Scaffold.LayLa.constructor | layla.py:15-48 | the constructor keeps its parameters, with defaults no bucket, `eu-central-1` and `.`, and leaves the disk as `make_app` does |

## Left out

- The command line in `main` (layla.py:152-212) is not modelled. It only parses arguments and builds a `LayLa`.
- `contents` is a sequence of strings. The source receives `None` from the command line when `-c` is omitted, and then fails at layla.py:82. That failure is not modelled.
- File-system errors and exceptions are not modelled: permissions, a file where a directory is expected, a missing parent directory. `Path.exists` is reduced to membership in the disk's sets of directories and files.
- `Disk` keys paths as plain strings, without `pathlib` normalisation: a target `out/` gives `out//contents`, and `.` and `""` are different keys although they name the same directory. A file may also be written under a path whose directory is not in the disk's set of directories.
- Layla.RequirementsLines, Layla.LambdaCodeLines, Layla.ConfigSettings, Layla.TemplateResources, Scaffold.ScaffoldContents, Scaffold.HandlerFile, Scaffold.RequirementsFileLines and Scaffold.TemplateFileIds state the line structure only for inputs whose lines `format_code` leaves alone. Requirements need libraries that are non-empty, single lines and without whitespace at their ends. The handler needs single-line libraries whose last one is non-empty and ends visibly. The configuration needs a stack name, bucket and region without line breaks. The template needs a safe name without line breaks that ends visibly. ScaffoldContents requires all of these together, and a layer name without whitespace in place of the condition on the safe name. For other inputs the texts are still defined, but these lemmas say nothing about them.
- Strings.TitleAt: only ASCII letters are cased. Python's `title()` also cases other Unicode letters.
- Strings.Strip uses Python's whitespace set for `str.isspace`. Dedent's margin uses spaces and tabs only, as `textwrap` does. Carriage returns inside values are not treated specially.
