# tess: primitive flattening and path reading, modelled in Dafny

`tess.py` turns 2D polygon paths into a flat list of triangle vertices. The
actual tessellation is done by the GLU tessellator, a foreign library. That
engine reports its output through callbacks:

- `begin(style)` opens a triangle fan, a triangle strip or an independent-triangle list.
- `vertex(v)` adds one vertex.
- `end()` closes the primitive.

The `ZoteTess` object keeps the open primitive's code (`tess_style`) and its
accumulated vertices (`current_shape`). When a primitive ends, the object
drains the accumulator from the front into the flat output list:

- A fan adds `c, p_j, p_j+1` for each consecutive pair.
- A strip adds `p_j, p_j+1, p_j+2` for each window of three.
- A triangle list is copied as it is.
- Any other code adds nothing.

`DiskFile` reads a text file of `x y` lines into paths. A short line closes
the current path.

The model has four modules:

- `Common` (common.dfy): the `Option` type and `Flatten`.
- `Primitives` (primitives.dfy): the OpenGL primitive codes and what one primitive emits, `Emitted`, together with count and order lemmas.
- `Tess` (zote_tess.dfy):
  - the callback `Event`s;
  - the `ZoteTess` class with fields `tessStyle`, `currentShape` and `triangles`, and its callback methods;
  - `Triangulate`, a loop over the events;
  - `make_triangles`.
- `DiskFile` (disk_file.dfy): the whitespace split, the line loop as a method, and its specification `ReadPaths` with the lemmas about it.

How the model stands in for things it cannot use:

- The GLU engine is replaced by the sequence of callback events it makes.
- A vertex is its coordinate sequence over an opaque coordinate type `C`.
- `float()` is a parameter `parse: string -> Option<N>`, which returns `None` where `float()` raises.
- The file is the sequence of lines its iterator yields, each with its line terminator. tess.py is Python 2 code, so a line is a byte string; each `char` of a modelled line stands for one byte, and `len(line) < 2` counts bytes.

Behaviour of the code worth knowing:

- A triangle-list primitive whose length is not a multiple of three is appended verbatim (tess.py:116). A trailing partial group is not dropped.
- A fan or strip with fewer than two vertices raises on `pop(0)` (tess.py:101-102, 108-109).

## Model

| member | source | states |
|---|---|---|
| `Primitives.FanTriplesShape` | tess.py:100-106 | a fan rim of m >= 1 vertices gives 3(m-1) entries, and triple j is (c, p_j, p_j+1) |
| `Primitives.StripTriplesShape` | tess.py:107-114 | a strip of n >= 2 vertices gives 3(n-2) entries, and triple j is (p_j, p_j+1, p_j+2) |
| `Primitives.EmittedShape` | tess.py:99-118 | one primitive of k vertices: fan and strip add 3(k-2) entries with the stated triples in emission order; a triangle list adds its vertices verbatim, trailing partial group included; any other code adds nothing |
| `Tess.FirstTwo` | tess.py:94 | the stored vertex is a prefix of the payload of length min(2, its length), as Python's `v[0:2]` |
| `Tess.ReplayKeepsPrefix` | tess.py:99-120 | over any run of callbacks the output list is only extended: what it held before stays a prefix |
| `Tess.ReplayAppend` | tess.py:93-120 | the callbacks act in order: running two event streams one after the other equals running their concatenation |
| `Tess.ReplayVertices` | tess.py:93-94 | a run of vertex callbacks appends one accumulator entry per payload and changes neither the style nor the output |
| `Tess.OnePrimitive` | tess.py:93-120 | begin, vertices, end from an empty accumulator raises exactly when a fan or strip has fewer than two vertices, and otherwise appends what the style emits, leaving the style None and the accumulator empty |
| `Tess.WholeTriangles` | tess.py:99-114 | if no triangle-list primitive is opened, the flat output length stays a multiple of three |
| `Tess.FanScenario` | tess.py:93-120 | the callbacks of a five-vertex fan with payloads (k, k, 0) produce the flat list of (0,1,2), (0,2,3), (0,3,4) over two coordinates |
| `Tess.GroupedAt` | tess.py:56-69 | grouping into threes gives len/3 groups, and group i is inputs 3i..3i+2 |
| `Tess.GroupedRoundTrip` | tess.py:56-69 | flattening the groups gives back the input |
| `Tess.FirstTripleRepeatedLosesInput` | tess.py:70-75 | for every input of six or more entries whose second triple differs from the first, make_triangles as written does not round-trip, and for a multiple of three it does not give the groups |
| `Tess.ZoteTess.constructor` | tess.py:52-54 | a new tessellator has style code 0 and an empty accumulator |
| `Tess.ZoteTess.CbBegin` | tess.py:96-97 | records the primitive code and changes nothing else |
| `Tess.ZoteTess.CbVert` | tess.py:93-94 | appends exactly one vertex, its first two coordinates, and changes nothing else |
| `Tess.ZoteTess.PopFront` | tess.py:101 | `pop(0)`: returns the first accumulated vertex and removes it |
| `Tess.ZoteTess.CbEnd` | tess.py:99-120 | requires two vertices for a fan or strip; appends `Emitted` of the style and accumulator to the output, keeps earlier output as a prefix, then sets the style to None and empties the accumulator |
| `Tess.ZoteTess.Triangulate` | tess.py:77-145 | starts with an empty accumulator and a fresh output list, keeps the old style code, and processes the events in order; it returns the output list that `Replay` gives, or None exactly when an end callback raises |
| `Tess.ZoteTess.MakeTriangles` | tess.py:56-75 | as written: None exactly when a non-empty input has fewer than three entries; otherwise ceil(n/3) sub-lists, each equal to the first three inputs |
| `Tess.ZoteTess.MakeTrianglesIntended` | tess.py:56-69 | corrected: None exactly when the length is not a multiple of three; otherwise the consecutive groups of three, whose flattening is the input |
| `DiskFile.WordLength` | tess.py:173 | the leading run of non-whitespace characters: none of them is whitespace, and it ends at the end or at whitespace |
| `DiskFile.Tokens` | tess.py:173 | `str.split()`: every token is non-empty and contains no whitespace |
| `DiskFile.TokensOfWord` | tess.py:173 | a non-empty run without whitespace is exactly one token |
| `DiskFile.TokensAcrossSpace` | tess.py:173 | a whitespace character separates tokens: the tokens of `a + [ch] + b` are those of `a` followed by those of `b`, so tokens are maximal runs |
| `DiskFile.TokensCoverText` | tess.py:173 | the tokens concatenated are exactly the line's non-whitespace characters, in order |
| `DiskFile.FilePoints` | tess.py:174-178 | every point that a two-token line gives has z = 0 |
| `DiskFile.FailureSticks` | tess.py:179-182 | once a conversion fails, reading the rest of the file cannot recover |
| `DiskFile.ReadPrefixInvariant` | tess.py:166-178 | after any prefix of the lines, the closed paths are one per break line, and closed paths plus the open path hold the file's points in order |
| `DiskFile.ReadPathsCount` | tess.py:166-183 | a successful read holds as many paths as there are lines shorter than two characters, plus one |
| `DiskFile.ReadPathsPoints` | tess.py:173-178 | the paths concatenated are the points of the two-token lines in file order, and every point has z = 0 |
| `DiskFile.SinglePath` | tess.py:166-183 | a file without break lines reads as one path holding all its points |
| `DiskFile.ReadPathsAcrossBreak` | tess.py:169-171 | a break line splits the file into two independent reads whose path lists are concatenated; the whole fails if either side fails |
| `DiskFile.ReadPathsFails` | tess.py:174-182 | reading fails exactly when some two-token line has a token that does not convert |
| `DiskFile.ReadLines` | tess.py:166-183 | the line loop computes `ReadPaths`: the closed paths followed by the final path, or None on a failed conversion |
| `DiskFile.ScenarioTokens` | tess.py:173 | `str.split()` splits "1 2\n" into "1", "2" and "2 1\n" into "2", "1" |
| `DiskFile.TwoPathsScenario` | tess.py:166-183 | the lines "1 2", an empty line and "2 1" read as the two one-point paths (1,2,0) and (2,1,0) |

## Left out

- The GLU calls (`gluNewTess`, `gluTessCallback`, the polygon and contour calls, `gluTessVertex`; tess.py:129-143) belong to a foreign library. The model takes the callback events the engine makes as input, so which events a given set of paths produces is not modelled.
- `cb_error` and `cb_combine` (tess.py:123-127) are engine glue: the first prints, the second returns coordinates to the engine. Neither touches the tessellator's state. A combined vertex reaches the model only as an ordinary vertex event.
- The message printed for an unknown primitive code (tess.py:118) is output only. The model keeps the branch, which adds nothing.
- Opening the file, the `sys.exit` on failure and the messages printed (tess.py:160-164, 179-182) are I/O. A failed conversion becomes a `None` result. A file that cannot be opened is outside the model, since the model starts from its lines.
- `float()` (tess.py:175-176) is floating-point conversion. It is the parameter `parse`, so coordinates are of an opaque type.
- `print_triangles`, `send_output`, `Shape.print_paths`, `usage` and the `__main__` block (tess.py:152-222) are output formatting and argument handling.
- tess_tests.py holds shape fixtures and a printing `main` with no assertions. It is not part of this model.
- `len(tokens) is 2` (tess.py:174) compares identity, which CPython's small-integer cache makes equal to `==`. The model uses equality.
- Tess.ZoteTess.Triangulate: ending the run with None when an end callback raises is a modelling choice. Whether the run aborts at all depends on the foreign engine's callback wrapper. A wrapper that prints the exception and returns, as ctypes callbacks do, lets GLU carry on: `tess_style` stays FAN or STRIP, the accumulator has already been drained, and later primitives are still emitted. Neither that continuation nor the state left behind is modelled. GLU itself does not emit fans or strips with fewer than three vertices, so with the real engine this path is not reached.

## Findings

| source | as written | input that shows it | evidently intended | confidence | as-written member | corrected member |
|---|---|---|---|---|---|---|
| tess.py:72-74 | every sub-list is `flat[0], flat[1], flat[2]`, whatever the loop index | six inputs `a,b,c,d,e,f` whose second triple differs from the first: the result is `[[a,b,c],[a,b,c]]` | sub-list k is `flat[3k], flat[3k+1], flat[3k+2]`, as the function's documentation says | high; not executed | `Tess.FirstTripleRepeatedLosesInput` | `Tess.ZoteTess.MakeTrianglesIntended` |
