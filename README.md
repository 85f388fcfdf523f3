# OBJ loader, modelled and proved in Dafny

This project models the two-pass Wavefront OBJ loader of `model.cpp`, which loads text files into arrays.

- **Counting pass.** `readObjFirstPass` walks the lines and counts the vertex (`v `), normal (`vn`) and face (`f `) lines.
- **Allocation.** `readObj` sizes the model's arrays from those counts and then decrements the stored normal and triangle counts.
- **Population pass.** `readObjSecondPass` walks the same lines again:
  - it writes vertex and normal coordinates through the 1-based cursors `vIdx` and `nIdx`;
  - it writes triangles through `tIdx`, after decoding each face line with `strstr` and a cascade of `sscanf` probes.

A file is given as the sequence of its line records: the character `>>` reads, and the rest of the line that `getline` leaves in the buffer. Both passes read the same sequence.

The modules follow the program's structure:

- `Scan` models the C library's `sscanf` for the directives the loader uses (`%d`, ordinary characters, white space) and its return value, including EOF. It also models `strstr`, and has a canonical printer of integer records with a round-trip lemma.
- `Records` holds the line records and the nested `switch` of both passes (`Classify`), and counts records per branch.
- `Faces` models the face decoder, `DecodeFace`, as written:
  - the nine `int` locals that `sscanf` writes and that keep their values from one face line to the next;
  - the format strings;
  - which branch a face line takes, and what each branch stores.

  `DecodeFaceIntended` is the decoder with the dispatch model.cpp evidently intends.
- `FaceLines` spells face lines in the four encodings (`v//n`, `v/t/n`, `v/t`, `v`) and proves what each decoder makes of each one.
- `Loader` contains the imperative parts:
  - a `Model` class with the counts and arrays;
  - the counting loop;
  - the allocation;
  - the population loop over `array`s.

  The population pass is specified by `Populate`, a fold of `Step` that collects every store as a map from slot to value. The loop is proved to leave exactly those stores in the arrays. Lemmas say where the stores of each record land, and that every store is in bounds.

model.cpp allocates first (176-178) and decrements afterwards (185-186). The model follows the code: the triangle array has one slot per face line, and the stored normal and triangle counts end one below their line counts; numVertices is kept.

Two defects are stated with both halves (see Findings):
- the coordinate arrays are one record too short. The loader uses the corrected size, and lemmas state the overflow of the size as written;
- the face dispatch lets partial matches through. The loader decodes faces as written, by `DecodeFace`. The corrected dispatch, `DecodeFaceIntended`, is proved to read every encoding back.

A third property is stated rather than corrected: a `vn` buffer still begins with `n`, so `%f` converts nothing on a standard normal line. `Loader.NormalsNeverStored` proves that, under this behaviour of the scanner, no normal coordinate is ever stored.

## Model

| member | source | states |
|---|---|---|
| Records.Classify | model.cpp:17-56 | a record is counted as a vertex exactly when it is `v` followed by a space, as a normal exactly when `v` is followed by `n`, and as a face exactly when `f` is followed by a space |
| Records.CountsPartition | model.cpp:18-56 | every record takes exactly one branch of the switch: the nine per-branch counts add up to the number of records |
| Records.CountIsCardinality | model.cpp:28-49 | a counter ends equal to the number of positions that hold a record of its kind |
| Records.CountAppend | model.cpp:16-57 | counting is additive over consecutive runs of lines |
| Records.CountBefore | model.cpp:28-49 | fewer records of a kind precede any record of that kind than the file holds in all |
| Records.StaleFinalRecordIgnored | model.cpp:16-17 | the extra iteration after a final newline (a failed `>>` keeps the old character, the buffer is empty) is never a vertex, a normal or a face |
| Scan.ScanInt | model.cpp:116-142 | `%d` fails with an input failure exactly when only white space is left, and never completes without converting. A conversion consumes a maximal run of digits |
| Scan.Run | model.cpp:116-142 | a scan converts at most one value per `%d`, and a scan that completes has converted all of them |
| Scan.AllConvertedCompletes | model.cpp:116-142 | for a format that ends with `%d` (all six of the loader's formats), converting every value means the scan completes |
| Scan.Strstr | model.cpp:115 | `strstr` finds a match exactly when the pattern occurs, and returns the first occurrence |
| Scan.FirstConversionDecides | model.cpp:126-135 | for a format that starts with `%d`: EOF exactly on a white-space buffer, 0 exactly when the first `%d` fails to match, otherwise at least 1 |
| Scan.RunPrefix | model.cpp:126-127 | a format that extends another converts at least the values the shorter one converts, and stops in the same place when the shorter one stops early |
| Scan.RunAppend | model.cpp:116-142 | after a complete run of one format, the concatenation with a second format goes on as the second alone from where the first stopped |
| Scan.ScanPrinted | model.cpp:116-142 | scanning a printed record of non-negative integers gives back its values, with a complete match |
| Faces.Assign | model.cpp:116-142 | the i-th converted value lands in the i-th variable passed, and variables past the last converted value keep what they held |
| Faces.ScanVars.Set | model.cpp:70 | writing one local changes that local and no other |
| Faces.FormatsFit | model.cpp:116-142 | each format string converts exactly as many values as its call passes distinct locals |
| Faces.FaceFormChoice | model.cpp:115-146 | as written: `//` anywhere selects v//n; otherwise v/t/n is chosen exactly when the first `%d` does not fail to match (EOF included), plain v otherwise; v/t is never chosen |
| Faces.VnFormFields | model.cpp:115-123 | a v//n line stores its converted values in v0, n0, v1, n1, v2, n2 in order; locals past the last conversion keep their earlier values; the triangle gets both triples |
| Faces.VtnFormFields | model.cpp:126-134 | in the v/t/n branch the nine-field scan decides the locals: converted values in order, stale values after them; the probe's stores are overwritten |
| Faces.AssignTwice | model.cpp:126-127 | after a probe whose conversions are a prefix of the full scan's, locals the full scan leaves alone hold their values from before both |
| Faces.VFormStale | model.cpp:141-146 | a line that reaches the plain v branch converts nothing, so its triangle gets the vertex references left by an earlier face |
| FaceLines.VnStore | model.cpp:115-123 | the v//n triangle field by field: each converted value, or the stale local where the scan stopped; both decoders agree here |
| FaceLines.VtnStore | model.cpp:126-134 | the v/t/n triangle field by field: each converted value, or the stale local where the scan stopped |
| FaceLines.VtStoreIntended | model.cpp:135-140 | in the intended decoder, the v/t branch stores the three vertex references it scanned and leaves the normals alone |
| FaceLines.VStoreIntended | model.cpp:141-146 | in the intended decoder, the plain v branch stores the three vertex references it scanned and leaves the normals alone |
| FaceLines.VtnIntendedAgrees | model.cpp:126-134 | when the probe converts all three fields, both decoders take the same v/t/n branch with the same result |
| FaceLines.CompleteVtnDecodes | model.cpp:126-134 | a buffer without `//` that the nine-field format reads completely yields its v and n fields in both decoders |
| FaceLines.VtLineScans | model.cpp:126-136 | what each format reads from a v/t line: both probes convert the first corner; only the two-field probe completes |
| FaceLines.VLineScans | model.cpp:126-142 | what each format reads from a plain v line: each probe converts one value and stops at the space |
| FaceLines.DecodeVnLine | model.cpp:115-123 | round trip: a v//n line decodes to its vertex and normal references, in both decoders |
| FaceLines.DecodeVtnLine | model.cpp:126-134 | round trip: a v/t/n line decodes to its vertex and normal references (texture references dropped), in both decoders |
| FaceLines.DecodeVtLine | model.cpp:126-140 | as written, a v/t line takes the v/t/n branch: its triangle gets the first vertex reference and, for the rest, stale locals |
| FaceLines.DecodeVLine | model.cpp:126-146 | as written, a plain v line does the same: one reference read, the rest stale |
| FaceLines.DecodeVtLineIntended | model.cpp:135-140 | round trip for the intended decoder: a v/t line gives its three vertex references, and the normals are left alone |
| FaceLines.DecodeVLineIntended | model.cpp:141-146 | round trip for the intended decoder: a plain v line gives its three vertex references, and the normals are left alone |
| FaceLines.DoubleSlashExample | model.cpp:115-123 | `f 1//2 3//4 5//6` gives vertex references 1, 3, 5 and normal references 2, 4, 6 |
| FaceLines.IntendedLoadsSpelled | model.cpp:113-146 | the corrected decoder reads a face line in any of the four encodings as the triangle it spells: vertex and normal references for v//n and v/t/n, vertex references alone for v/t and v |
| FaceLines.PlainFaceExample | model.cpp:126-146 | `f 1 2 3` as written gives 1 and then the previous face's v1 and v2 and normals; the intended decoder gives 1, 2, 3 |
| Loader.Model.constructor | model.cpp:166 | a new model has zero counts and empty arrays |
| Loader.ReadObjFirstPass | model.cpp:7-63 | the stored counts are the numbers of vertex, normal and face records |
| Loader.StoreCoords | model.cpp:90 | a `%f %f %f` scan stores its converted values, in order, in slots base to base+2, and nothing else changes |
| Loader.Step | model.cpp:79-154 | comments, texture coordinates, unknown `v` lines, directives, other faces and other lines leave the pass state unchanged |
| Loader.VertexStepStores | model.cpp:89-92 | a vertex record read with cursor vIdx = k moves vIdx to k+1 and leaves the j-th value its scan converted in slot 3k+j |
| Loader.NormalStepStores | model.cpp:93-96 | a normal record read with cursor nIdx = k moves nIdx to k+1 and leaves the j-th value its scan converted in slot 3k+j |
| Loader.PopulateAppend | model.cpp:78-155 | the pass over two runs of lines is the pass over the first followed by the pass over the second |
| Loader.PopulateEffects | model.cpp:67-147 | each cursor advances by the number of its records; only slots between the old and new cursor are written; earlier stores are never overwritten |
| Loader.Cursors | model.cpp:67-69 | from the start, vIdx and nIdx end one past the vertex and normal counts, and tIdx ends at the face count |
| Loader.WritesInBounds | model.cpp:176-178 | every coordinate store lies in slots 3 to 3·count+2; the triangle slots written are exactly 0 to count-1 |
| Loader.Headroom | model.cpp:176-178 | before each record, its cursor leaves room for its stores in arrays sized from the counts |
| Loader.VertexRecordStored | model.cpp:89-92 | the k-th vertex record's j-th converted coordinate ends in slot 3k+j, whatever lines follow |
| Loader.NormalRecordStored | model.cpp:93-96 | the k-th normal record's j-th converted coordinate ends in slot 3k+j, whatever lines follow |
| Loader.FaceRecordStored | model.cpp:113-148 | the i-th face line (from 0) fills triangle slot i with what the as-written decoder makes of it, given the locals earlier faces left |
| Loader.FaceLineLoaded | model.cpp:112-147 | in the slot given by its position among the faces, a v//n or v/t/n line loads as the triangle it spells; a v/t or plain v line loads its first vertex reference with the other two vertex references and all normal references left by earlier face lines |
| Loader.NormalsNeverStored | model.cpp:94 | when `%f` cannot start at `n `, `vn x y z` lines store no normal coordinate at all |
| Loader.VertexOverflowAsWritten | model.cpp:176 | with model.cpp's sizing, the last vertex record of a file, wherever it stands among the other lines, stores its second converted coordinate in slot numVertices·3+1, one past the end |
| Loader.NormalOverflowAsWritten | model.cpp:177 | the same for the last normal record of a file: its second converted coordinate lands in slot numNormals·3+1, one past the end |
| Loader.OneVertexOverflows | model.cpp:176 | the file `v 1 2 3`: four floats allocated, slots 3, 4 and 5 written |
| Loader.StoreCoordsAt | model.cpp:90 | the array update of one `%f %f %f` scan: converted values at base.., every other slot unchanged |
| Loader.ReadFace | model.cpp:115-146 | one face line on the array: slot tIdx gets the as-written decoder's store (the v/t branch is proved unreachable), the rest of the array is unchanged, and the locals come back as the scans left them |
| Loader.ReadRecord | model.cpp:79-154 | one loop iteration: cursors and locals become those of `Step`, and the arrays reflect its stores |
| Loader.ReadObjSecondPass | model.cpp:65-156 | after the loop, each array holds exactly the stores of `Populate`, and elsewhere its contents from before |
| Loader.AllocateFromCounts | model.cpp:176-186 | arrays sized from the undecremented counts and zero-filled; numNormals and numTriangles then decremented; numVertices kept |
| Loader.ReadObj | model.cpp:158-194 | counts and decremented counts as above; coordinate arrays of the corrected size `FixedSlots`, triangle array of one slot per face line, projects and curs of model.cpp's numVertices·3+1; vertices and normals hold the pass's stores with zeros elsewhere; every triangle slot holds what the as-written decoder made of its face line |

## Left out

- File handling (model.cpp:160-164, 182-183, 189) is not modelled: opening, closing and reopening the file, and the `exit(-1)` when it cannot be opened. This is I/O and process control. The file is a given sequence of records, and both passes read it.
- The `while(!ifs.eof())` loop (model.cpp:16-17, 78-79) is not modelled as an iostream. Its extra final iteration, with a stale `ch` and an empty buffer, is covered by Records.StaleFinalRecordIgnored.
- The 256-byte `getline` limit is left out: lines are taken whole. In model.cpp a rest-of-line of 256 characters or more makes `getline` set failbit; from then on `>>` and `getline` extract nothing and eof is never reached, so the loops at model.cpp:16 and model.cpp:78 never end. The model gives no account of such files.
- Floating-point parsing by `%f` (model.cpp:90, 94) is the `CoordScanner` parameter: the values a scan converts, in order. The model uses at most the first three.
- Console output (model.cpp:36, 100, 162, 191) is left out: diagnostics only.
- Scan.ScanInt: a `%d` whose value does not fit in an `int` is undefined behaviour in C; the model keeps the exact value.
- Loader.ReadObjFirstPass: the `int` counters are unbounded here; overflow past 2^31-1 lines is not modelled.
- NUL characters inside a line are not modelled. The C functions stop at the first NUL; the model reads the whole line.
- Uninitialised memory is given fixed contents:
  - freshly allocated coordinate arrays hold zeros;
  - freshly allocated triangles hold the `Blank` triangle;
  - the nine locals declared at model.cpp:70 start as the `stale` parameter.
- `projects` and `curs` (model.cpp:179-180) are only allocated, with model.cpp's size. The loader never writes them.
- `Triangle` is a value: two sequences of three references. Its in-place field writes become one whole-slot update per face line. The declaration in model.h is not part of this model.
- Loader.AllocateFromCounts, Loader.ReadObj: the coordinate arrays get the corrected size `FixedSlots` (three slots per record plus the unused slots 0 to 2), not model.cpp's `numVertices*3+1`. See Findings.

## Findings

| source | as written | input that shows it | evidently intended | confidence | as-written member | corrected member |
|---|---|---|---|---|---|---|
| model.cpp:176 | the vertex array holds numVertices·3+1 floats, but the k-th vertex (counting from 1) writes slots 3k, 3k+1 and 3k+2, so the last vertex writes two floats past the end | the one-line file `v 1 2 3`: 4 floats allocated, slots 3, 4 and 5 written | numVertices·3+3 floats, with slots 0 to 2 unused | high; not executed | Loader.VertexOverflowAsWritten | Loader.WritesInBounds |
| model.cpp:177 | the normal array holds numNormals·3+1 floats, but the k-th normal writes slots 3k to 3k+2 | `vnan nan nan`: its buffer `nan nan nan` converts three values, so slots 3 to 5 are written into 4 floats | numNormals·3+3 floats | medium (a standard `vn` line converts nothing, see Loader.NormalsNeverStored); not executed | Loader.NormalOverflowAsWritten | Loader.WritesInBounds |
| model.cpp:126 | the v/t/n branch is taken whenever the `%d/%d/%d` probe returns non-zero, so partial matches and EOF count. The v/t branch (135-140) can never be reached: both probes start with `%d` and fail together | `f 1 2 3`: the probe returns 1, and the triangle gets vertex 1 followed by the previous face's v1, v2 and normals | take v/t/n only when the probe converts 3 fields, and v/t only when `%d/%d` converts 2 | high; not executed | FaceLines.PlainFaceExample | FaceLines.IntendedLoadsSpelled |
