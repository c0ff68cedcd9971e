# par_msquares in Dafny

A model of the marching-squares tessellator `par_msquares.h`, with proofs
about it. The library reads an image and builds triangle meshes from it:

- `par_msquares_function` builds one mesh from an inside test. `par_msquares_grayscale_multi` builds one mesh per band of grey levels, and `par_msquares_color_multi` one mesh per distinct colour.
- The image is cut into square cells of `cellsize` pixels. Each cell is classified by the samples at its four corners.
- The case found is looked up in tables that the library decodes from digit strings (`par_init_tables`). The table gives the triangles to place in the cell, over nine nominal slots: four corners, four edge midpoints and a centre.
- Points on a cell's western and northern edges are welded to the coincident points of the neighbouring cells.
- With CONNECT, boundary edges get extrusion (connector) triangles.
- With SIMPLIFY, runs of full cells are merged into quads. On the `par_msquares_function` path, which `par_msquares_grayscale_multi` also takes, unreferenced points are then removed; `par_msquares_color_multi` keeps every point.
- With DUAL, the image is also marched inverted.
- `par_msquares_merge` concatenates mesh lists and gives each mesh a level. `par_msquares_internal_finalize` appends the pending connector triangles.

The model keeps the source's form:

- The table decoder, both marchers, the simplification and compaction passes, the merge and finalize are methods with loops. Each is proved against a reference definition. For a marcher, the reference says cell by cell, in raster order, which points are created and where the corners of each triangle and connector lie.
- The classification functions (`multi_code`, `argb`, `cmp`, `color_inside`) are functions and small methods.

Points are abstract. A point is a nominal position in half-cell units plus a Z value: the height callback's value, the alpha byte, or a level. Each mesh is a value (`Meshes.Mesh`).

Modules, one file each:

| file | module | models |
|---|---|---|
| wrappers.dfy | Wrappers | the `Option` type |
| sequences.dfy | Sequences | first-occurrence deduplication |
| tables.dfy | Tables | the three table literals and `par_init_tables` |
| classify.dfy | Classify | the binary case code, the corner sample indices, `par_msquares_multi_code`, `par_msquares_argb`, `par_msquares_cmp`, `color_inside` |
| geometry.dfy | Geometry | slot positions and the welding pairs |
| mesh.dfy | Meshes | the mesh record, `get_mesh`/`get_count`, `par_msquares_merge`, `par_msquares_internal_finalize` |
| simplify.dfy | Simplification | the SIMPLIFY pass, shared by both marchers |
| compact.dfy | Compaction | the removal of unreferenced points |
| binary.dfy | BinaryMarch | the raster scan of `par_msquares_function` |
| tessellate.dfy | BinaryMesh | `par_msquares_function` as a whole (DUAL included) and `par_msquares_grayscale_multi` |
| palette.dfy | Palette | the colour table and the remapping of `par_msquares_color_multi` |
| colour.dfy | ColourMarch | the raster scan of `par_msquares_color_multi` |
| colourmesh.dfy | ColourMesh | `par_msquares_color_multi` as a whole |

## Model

| member | source | states |
|---|---|---|
| Sequences.DedupProperties | par_msquares.h:143-152 | A first-occurrence point list holds every slot of the triangle list, each slot once, in order of first occurrence. |
| Sequences.FirstIndex | par_msquares.h:143-152 | The result is the first position holding the value: the value is there and does not occur before it. |
| Tables.BinaryRun | par_msquares.h:116-132 | Each of the sixteen BINARY_TABLE runs is well formed: a count digit, then three slot digits per triangle, each slot below 8. |
| Tables.QuaternaryRuns | par_msquares.h:157-221 | Every corner of every one of the 64 QUATERNARY_TABLE/QUATERNARY_EDGES cases is well formed with slots below 9, and its edge slots are among its triangle slots. |
| Tables.SlotsOfRun | par_msquares.h:227-234 | A well-formed run spells `width` slots per unit of its count, each below the bound the source asserts. |
| Tables.EdgesAmongTriangles | par_msquares.h:262-279 | A corner's boundary-edge slots are all slots of that corner's triangles. |
| Tables.FullCellTriangles | par_msquares.h:132 | Binary case 15 (all corners inside) is the two triangles (0,2,4) and (4,6,0), the full square that SIMPLIFY relies on. |
| Tables.UniformCellTriangles | par_msquares.h:158 | Quaternary case 0 (one colour at all corners) is the two triangles (0,2,4) and (0,4,6) on corner 0; the other corners are empty. |
| Tables.RunAt | par_msquares.h:137-140 | When the unread text is the concatenation of runs `i..`, it starts with run `i` and continues with runs `i+1..`. |
| Tables.BinaryRunsOk | par_msquares.h:116-132 | All of BINARY_TABLE's runs are well formed with slots below 8. |
| Tables.QuaternaryRunsOk | par_msquares.h:157-279 | All 256 corner runs of both quaternary literals are well formed with slots below 9, and edge slots lie among the corner's triangle slots. |
| Tables.ReadRun | par_msquares.h:227-234 | Reading a run from its start yields exactly its slot list and stops just past it. |
| Tables.ReadBinaryRun | par_msquares.h:138-154 | One binary case gives its triangle slots and, through the bit mask, their first-occurrence list as the point list; the token ends just past the run. |
| Tables.ReadBinaryCase | par_msquares.h:137-155 | Case `i` is read off the text holding runs `i..`, leaving the text of runs `i+1..`. |
| Tables.DecodeBinary | par_msquares.h:137-155 | The sixteen decoded triangle lists are the runs' slot lists, the point lists are their deduplications, and exactly the literal's length is consumed. |
| Tables.ReadCase | par_msquares.h:226-259 | The four corner runs of case `i` are read as its four slot lists, leaving the runs of case `i+1..`. |
| Tables.DecodeQuaternary | par_msquares.h:225-260 | The 64 cases of four corner lists are the literal's runs in order, and exactly `strlen` of the literal is consumed (the source's final assert). |
| Tables.BinaryDecodedOk | par_msquares.h:137-155 | Decoded binary tables hold whole triangles over slots 0..7, with point lists that are first-occurrence deduplications. |
| Tables.CornerDecodedOk | par_msquares.h:225-318 | One decoded corner has whole triangles with slots below 9, and edge slots below 9 that are among its triangle slots. |
| Tables.QuaternaryDecodedOk | par_msquares.h:225-318 | Decoded quaternary tables satisfy everything the colour marcher reads from them. |
| Tables.InitTables | par_msquares.h:114-319 | `par_init_tables`: the decoded tables are the literals' slot lists, satisfy the marchers' table assumptions, no binary point list has more than six entries (the count plus six of `sqrpts`), and each literal is consumed exactly to its end. |
| Tables.DecodedOk | par_msquares.h:137-155 | The decoded literals satisfy both marchers' table assumptions, and every binary point list fits the seven-word `sqrpts` allocation. |
| Tables.BinaryPointsAtMostSix | par_msquares.h:144-152 | Each of the sixteen binary cases has at most six distinct slots, so its point list fits the count-plus-six allocation. |
| Sequences.DedupWithin | par_msquares.h:146-152 | A deduplicated list has no more entries than the set of values its input draws from. |
| Classify.BinaryCode | par_msquares.h:674-675 | The 4-bit code names the corners exactly: bit 0 is SW, bit 1 SE, bit 2 NW and bit 3 NE. |
| Classify.FullCode | par_msquares.h:898-900 | Code 15, the only code SIMPLIFY merges, holds exactly when all four corners are inside. |
| Classify.SamplesInImage | par_msquares.h:657-670 | Every corner sample index the binary marcher reads lies inside the `width * height` image. |
| Classify.GridNonEmpty | par_msquares.h:554-555 | Under the source's size asserts the grid has at least one row and one column. |
| Classify.ColumnAdvance | par_msquares.h:665-670 | Stepping a column moves the sample index `cellsize` pixels east, one less onto the last grid line. |
| Classify.SouthIsNextNorth | par_msquares.h:657-658 | Except for the last row, a row's southern sample line is the next row's northern one. |
| Classify.LastSouthClamped | par_msquares.h:658 | The last row's southern samples are clamped to the last pixel row (`maxrow`). |
| Classify.LocalIndices | par_msquares.h:1091-1123 | SW gets local index 0, and corner `k` never gets an index above `k`. |
| Classify.MultiCode | par_msquares.h:1091-1123 | The low two bits of the packed code are zero, `code >> 2` is below 64, and each two-bit field is that corner's local index. |
| Classify.UnpackIndices | par_msquares.h:1122 | Packing four indices below 4 two bits apart can be undone field by field. |
| Classify.LocalIndicesFirstAppearance | par_msquares.h:1091-1123 | Local indices are handed out in first-appearance order SW, SE, NE, NW: each is the position of its corner's value among the distinct values. |
| Classify.MultiCodeSameIndex | par_msquares.h:1091-1123 | Two corners get the same local index exactly when their values are equal. |
| Classify.Argb4 | par_msquares.h:1127-1133 | A 4-byte pixel R,G,B,A packs into 0xAARRGGBB. |
| Classify.PackBytes | par_msquares.h:1134-1138 | With at most four bytes the shift loop loses nothing: byte `k` of the word is the `k`-th byte from the end. |
| Classify.Argb | par_msquares.h:1125-1140 | `par_msquares_argb` computes the pixel's colour word, which fits 32 bits. |
| Classify.ContextOfArgb4 | par_msquares.h:386-391 | Unpacking a 4-byte pixel's colour word into the inside-test context gives back the pixel. |
| Classify.Argb4Injective | par_msquares.h:1127-1133 | Distinct 4-byte pixels have distinct colour words. |
| Classify.Cmp | par_msquares.h:1080-1087 | The comparator returns -1, 0 or 1 exactly when the first word is below, equal to or above the second. |
| Classify.ColorInside | par_msquares.h:361-371 | The early-exit scan says inside exactly when the pixel's `bpp` bytes equal the context colour's. |
| Classify.WordFromBytes | par_msquares.h:388-391 | A 32-bit word is the sum of its four bytes at their weights. |
| Classify.ColorInsideIsArgbMatch | par_msquares.h:383-397 | For 4-byte pixels, the inside test against colour `c` holds exactly when the pixel's colour word is `c`. |
| Geometry.SlotsDistinct | par_msquares.h:1268-1273 | The nine slots of a cell sit at nine different positions. |
| Geometry.WestPartnerIsCoincidence | par_msquares.h:691-702 | A slot and a slot of the western neighbour coincide exactly when they are a west weld pair (0-2, 7-3, 6-4). |
| Geometry.NorthPartnerIsCoincidence | par_msquares.h:703-714 | A slot and a slot of the northern neighbour coincide exactly when they are a north weld pair (4-2, 5-1, 6-0). |
| Geometry.PartnerTablesAgree | par_msquares.h:1184-1185 | The colour marcher's `west_to_east` and `north_to_south` tables encode the binary marcher's weld pairs, and slot 8 is never welded. |
| Geometry.PartnersOnEdges | par_msquares.h:1184-1185 | The slots a cell's west or north partner can reuse are exactly the slots on the neighbour's eastern or southern edge. |
| Meshes.GetCount | par_msquares.h:456-460 | `par_msquares_get_count` is the number of meshes in the list. |
| Meshes.GetMesh | par_msquares.h:449-454 | `par_msquares_get_mesh` returns mesh `mindex` of the list for any index below the count. |
| Meshes.FlattenLength | par_msquares.h:483-487 | The merged list holds as many meshes as all lists together. |
| Meshes.FlattenAt | par_msquares.h:489-496 | Mesh `j` of list `i` lands at offset `count(lists before i) + j`: the input order is kept. |
| Meshes.SnapPoints | par_msquares.h:511-518 | Every point of the mesh gets the same level and keeps its position. |
| Meshes.MarkExtrusion | par_msquares.h:525-535 | A marker is set exactly for the points named as the first two corners of the second triangle of a connector pair. |
| Meshes.LowerMarked | par_msquares.h:537-544 | Exactly the marked points move to the given level; the others are untouched. |
| Meshes.LowerExtrusion | par_msquares.h:519-545 | Lowering the marked points of a snapped mesh gives the CONNECT level assignment: extrusion points one level down. |
| Meshes.Merge | par_msquares.h:480-548 | The merge concatenates the lists in order. With a nonzero flag set, mesh `i` gets level `i`. With CONNECT also set, the extrusion points of mesh `i` move to level `i - 1`. |
| Meshes.SnapLevels | par_msquares.h:500-517 | After the SNAP loop, mesh `i` is mesh `i` of the list with every point at level `i`. |
| Meshes.LowerLevels | par_msquares.h:519-545 | After the CONNECT loop, each snapped mesh after the first has its extrusion points one level down; the first is unchanged. |
| Meshes.Finalize | par_msquares.h:1142-1171 | Every mesh after the first gets its pending connector triangles appended (the corrected guard; see Findings). |
| Meshes.FinalizedAppendsConnectors | par_msquares.h:1147-1169 | After finalizing, each later mesh holds its old triangles followed by its connectors, with none pending. Points, colours and the first mesh are unchanged. |
| Meshes.FinalizeGuardHarmless | par_msquares.h:1144-1146 | The source's early return is harmless when mesh 1 has connectors, or when no mesh has any pending. |
| Meshes.FinalizeGuardLosesConnectors | par_msquares.h:1144-1146 | Three meshes, where mesh 1 has no connectors and mesh 2 has a pair, lose mesh 2's connectors under the source's guard. |
| Simplification.RunStart | par_msquares.h:901-906 | The run a block column belongs to starts at a block column, contains only block columns up to it, and is maximal to the west. |
| Simplification.EmitCellLength | par_msquares.h:938-973 | A column emits 6 indices if it closes a run, plus its two cells' triangles unless it is itself a block. |
| Simplification.PendingStep | par_msquares.h:907-912 | An open run grows by four triangles per block column; the closing column eliminates four per column less two. |
| Simplification.EmitPrefixLength | par_msquares.h:926-974 | Every triangle of the first `n` columns of a row pair is emitted, eliminated, or waiting in an open run. |
| Simplification.PairOutLength | par_msquares.h:926-995 | A row pair emits three indices for each of its triangles that is not eliminated. |
| Simplification.OutputLength | par_msquares.h:926-995 | The pairs together emit three indices for each triangle of their rows that is not eliminated. |
| Simplification.GridCountMonotone | par_msquares.h:1536 | Running triangle counts never decrease over the rows. |
| Simplification.OutputFits | par_msquares.h:922-923 | The pass never writes past the `(ntris - neliminated) * 3` indices it allocates. It fills them exactly when the number of rows is even. |
| Simplification.MapSeq | par_msquares.h:1045-1050 | Mapping keeps the length and maps each entry. |
| Simplification.RunQuadMap | par_msquares.h:940-958 | Mapping the indices commutes with building a run's quad. |
| Simplification.CellTrisMap | par_msquares.h:961-966 | Mapping commutes with copying a cell's triangles. |
| Simplification.EmitCellMap | par_msquares.h:938-973 | Mapping commutes with what one column emits. |
| Simplification.EmitPrefixMap | par_msquares.h:927-974 | Mapping commutes with what the first `n` columns emit. |
| Simplification.OutputMap | par_msquares.h:926-995 | The pass only rearranges indices: mapping before or after simplifying gives the same list, so corners are simplified like indices. |
| Simplification.PairOutMap | par_msquares.h:927-994 | Mapping commutes with what a row pair emits. |
| Simplification.PairEliminated | par_msquares.h:898-918 | The counting loop over one row pair finds exactly the pair's eliminated triangles. |
| Simplification.CountEliminated | par_msquares.h:895-919 | `neliminated_triangles` is the total of `4W - 2` over the maximal runs of every row pair. |
| Simplification.CopyCell | par_msquares.h:961-966 | Copying a cell gives exactly the triangles its record addresses. |
| Simplification.EmitQuad | par_msquares.h:940-958 | The quad read through the corner offsets is the run's reference quad. |
| Simplification.RebuildPair | par_msquares.h:927-994 | The rebuilding loop over one row pair emits exactly the pair's reference output. |
| Simplification.Zeros | par_msquares.h:923 | The allocation the pass leaves untouched holds zero indices. |
| Simplification.Rebuild | par_msquares.h:920-997 | The new index array has `ntris - elim` triangles: the reference output, followed by zeros when the number of rows is odd. |
| Compaction.KeptRank | par_msquares.h:1024-1041 | The kept points are exactly the used ones, in order, and a used point's new index is its rank. |
| Compaction.RankStrictlyIncreasing | par_msquares.h:1024-1041 | The renumbering `mapping` is strictly increasing over the kept indices. |
| Compaction.RankOnto | par_msquares.h:1024-1041 | The renumbering leaves no gap: every new index is the rank of some used point. |
| Compaction.RankIsCardinality | par_msquares.h:1007-1021 | The rank of a bound is the number of used indices below it. |
| Compaction.MarkIndices | par_msquares.h:1009-1021 | Marking sets exactly the indices of both lists and counts the distinct ones (`newnpts`). |
| Compaction.Compact | par_msquares.h:1006-1054 | Compaction keeps exactly the referenced points in their old order, `newnpts` of them, and renumbers both index lists by rank. Every renumbered index addresses the same point as before, and every kept point is referenced. |
| Compaction.CompactedOk | par_msquares.h:1006-1054 | Keeping the used points in order and renumbering by rank preserves what every index addresses and leaves no point unreferenced. |
| Compaction.UsedCount | par_msquares.h:1007-1021 | As many points are kept as there are distinct referenced indices. |
| Compaction.CompactedCovers | par_msquares.h:1045-1053 | After renumbering, every new point index is referenced. |
| Compaction.RemapCovers | par_msquares.h:1045-1053 | Renumbering every index by rank hits every rank below the bound. |
| Compaction.KeepMarked | par_msquares.h:1024-1041 | The copy loop keeps the marked points in order and records each one's rank in `mapping`. |
| Compaction.Remap | par_msquares.h:1045-1050 | Each index is replaced by its rank. |
| BinaryMarch.CellCode | par_msquares.h:661-675 | A cell's case is a 4-bit code. |
| BinaryMarch.TablesOkCell | par_msquares.h:676-788 | Every cell's case has whole triangles over slots. Each triangle slot has a point (is in the mask), and the point slots are distinct. |
| BinaryMarch.FullCellCorners | par_msquares.h:786-804 | A full cell emits two triangles forming its square. |
| BinaryMarch.RowFitsStep | par_msquares.h:788-792 | A new record is placed after the triangles already emitted and adds its count. |
| BinaryMarch.GridFitsStep | par_msquares.h:788-792 | A finished row of records joins the grid and its triangles add to the total. |
| BinaryMarch.PlaceSlot | par_msquares.h:686-783 | A slot welds to the western neighbour's coincident point, then to the northern one's, in the source's order, and takes that neighbour's index for the partner slot; otherwise it becomes the next new point. Its index addresses a point at the slot's position. |
| BinaryMarch.PlaceSlots | par_msquares.h:682-784 | The point loop sets the mask to the case's slots and appends exactly the non-welded points. Every slot's index is an original point at that slot. |
| BinaryMarch.PositionsOfTriangle | par_msquares.h:799-801 | A triangle written as (c, b, a) has the corners of c, b and a. |
| BinaryMarch.EmitSlots | par_msquares.h:795-804 | The triangle loop emits each table triangle reversed, with indices whose positions are the reference triangle corners. Every index is an original point, never an extrusion copy. |
| BinaryMarch.EmitOnOriginals | par_msquares.h:795-804 | One emitted triangle takes the cell's slot indices, which are original points. |
| BinaryMarch.OnOriginalsAppend | par_msquares.h:795-804 | Triangles already on originals stay on them as the originals grow. |
| BinaryMarch.Duplicate | par_msquares.h:826-831 | A point is duplicated at most once (the `edgemap` sentinel test). A copy is exact and is recorded in the edge map. |
| BinaryMarch.DuplicateOk | par_msquares.h:826-831 | Appending a copy of an original and recording it keeps the edge map one-to-one and the points well formed. |
| BinaryMarch.EdgeMapAt | par_msquares.h:826-843 | An original's duplicate is an existing, non-original copy of it. |
| BinaryMarch.PairIndicesOk | par_msquares.h:844-866 | The connector pair covers the segment between the two midpoints and its duplicate, and its 4th and 5th corners are the duplicates. |
| BinaryMarch.ConnectTriangle | par_msquares.h:810-867 | A boundary triangle (two odd slots) adds exactly one pair of connector triangles over its midpoints and their duplicates; other triangles add nothing. |
| BinaryMarch.AppendPair | par_msquares.h:844-866 | Appending a pair keeps the connectors marking exactly the duplicates, with the reference corner positions. |
| BinaryMarch.DuplicateBoth | par_msquares.h:826-843 | Both midpoints end up with duplicates, and any new point is one of them. |
| BinaryMarch.ConnectorPositionsStep | par_msquares.h:808-867 | The reference connector corners of a slot list grow triangle by triangle. |
| BinaryMarch.ConnectSlots | par_msquares.h:807-868 | The extrusion loop's connectors have the reference connector corners, and their 4th and 5th corners mark exactly the duplicated points. |
| BinaryMarch.ConnectStep | par_msquares.h:810-867 | One iteration of the extrusion loop keeps the edge map, the points and the marking well formed. |
| BinaryMarch.KeptFresh | par_msquares.h:781-783 | New original points extend the originals' view by exactly those points. |
| BinaryMarch.KeptCopies | par_msquares.h:826-843 | Appending duplicates leaves the originals' view unchanged. |
| BinaryMarch.MarchCell | par_msquares.h:676-868 | One cell appends exactly its created points, its reference triangle corners and, with CONNECT, its reference connector corners. Its triangles use original points only. The mask is the cell's slots. |
| BinaryMarch.MarchStateStep | par_msquares.h:676-884 | The march state, which agrees with the reference trace of the cells done so far, advances by one cell. |
| BinaryMarch.DoneNextRow | par_msquares.h:656-885 | The end of a row is the start of the next. |
| BinaryMarch.RowBufferAt | par_msquares.h:680-714 | The row buffers give each cell its northern neighbour's mask and southern slot indices. |
| BinaryMarch.RowBufferSet | par_msquares.h:871-875 | Storing a cell's mask and southern indices moves the row buffer one column on. |
| BinaryMarch.MarchStep | par_msquares.h:676-884 | One cell with its buffer reads and writes: the march state and the row buffers advance. The new triangles have the cell's reference corners. |
| BinaryMarch.MarchRow | par_msquares.h:657-885 | A row of cells extends the march to the next row. With SIMPLIFY, each cell's record fits the triangles emitted. |
| BinaryMarch.MarchColumns | par_msquares.h:664-884 | The column loop carries the march, the buffers and the running samples from the first column to the end of the row. |
| BinaryMarch.ColumnStart | par_msquares.h:657-663 | The row's start sets up the column loop's state. |
| BinaryMarch.ColumnEnd | par_msquares.h:664-884 | The end of the column loop is the start of the next row. |
| BinaryMarch.ColumnStep | par_msquares.h:664-884 | Sampling, recording and marching one cell keep the column loop's state. |
| BinaryMarch.RecordsStep | par_msquares.h:788-792 | A cell's record (full, first triangle, count) fits the corners emitted. |
| BinaryMarch.SampleCell | par_msquares.h:665-675 | The sample indices move to the cell's eastern grid line, and the code is the reference cell code. |
| BinaryMarch.RecordStep | par_msquares.h:788-792 | The record a cell stores is its reference record. |
| BinaryMarch.March | par_msquares.h:656-885 | The raster scan produces exactly the reference trace of the whole grid. Every point is the one created at its position. The main triangles use original points only. With SIMPLIFY, the records of every cell fit the emitted triangles. |
| BinaryMesh.GridFitsRecordsOk | par_msquares.h:788-792 | Records that fit the emitted triangles are records the SIMPLIFY pass can read. |
| BinaryMesh.PositionsMap | par_msquares.h:799-801 | Reading the positions of an index list is mapping over it. |
| BinaryMesh.SimplifiedPositions | par_msquares.h:926-995 | The simplified triangles address points of the march, and their corners are the simplification of the original corners. |
| BinaryMesh.PairsAtEnd | par_msquares.h:1058-1066 | Appending the connectors after the main triangles puts the pairs in the last `nconn` triangles. |
| BinaryMesh.MarkedIsExtruded | par_msquares.h:525-535 | The points the merge marks are exactly the 4th and 5th corners of the marcher's connector pairs. |
| BinaryMesh.Tessellate | par_msquares.h:578-1077 | One march without DUAL. Every point is the one the marcher creates at its position, so with HEIGHTS its Z is the height callback's value (lines 777-779); copies keep it. The main triangles have the reference corners and use no extrusion point. The extrusion triangles have the reference extrusion corners. With SIMPLIFY the main corners are the simplified reference corners, zero indices follow when the number of rows is odd, and every point is referenced. Without SIMPLIFY the non-extrusion points are the created points, in order. |
| BinaryMesh.PlainTessellated | par_msquares.h:1058-1076 | Without SIMPLIFY the mesh is the march's state with the connectors appended. Its points are the marcher's, and its main triangles use originals only. |
| BinaryMesh.SimplifiedIndices | par_msquares.h:920-997 | The rebuilt index list addresses points of the march. |
| BinaryMesh.SimplifiedTessellated | par_msquares.h:1006-1076 | With SIMPLIFY the mesh is the compacted, simplified march with the connectors appended. Its points are the marcher's, and the simplified main triangles use no extrusion copy. |
| BinaryMesh.SimplifiedOnOriginals | par_msquares.h:920-997 | The simplified triangles use only indices the original triangles use, so they stay on original points. |
| BinaryMesh.SimplifiedUnmarked | par_msquares.h:1006-1056 | After renumbering, the simplified main triangles reference no extrusion copy: an original and a copy never share a new index. |
| BinaryMarch.KeptPointsOk | par_msquares.h:1026-1043 | Keeping the referenced points keeps points the marcher created at their positions, Z included. |
| Compaction.RankInjective | par_msquares.h:1026-1043 | Distinct kept points get distinct new indices. |
| BinaryMesh.Snapped | par_msquares.h:497-545 | A merge's result has as many meshes as its input. |
| BinaryMesh.LeveledShape | par_msquares.h:511-545 | Levelling keeps the triangles, so the extrusion points stay marked. |
| BinaryMesh.LeveledTwice | par_msquares.h:511-518 | A second levelling overrides the first. |
| BinaryMesh.MergeStep | par_msquares.h:432-442 | Merging an already merged list with one more part gives the merge of all parts with the new flags. |
| BinaryMesh.DualFlags | par_msquares.h:557-575 | With DUAL, the first march is inverted relative to the caller's flags and has no CONNECT. The second keeps the caller's INVERT, with CONNECT only with HEIGHTS. Neither has DUAL. |
| BinaryMesh.TessellatedConnectors | par_msquares.h:1058-1076 | A tessellated mesh ends with its connector pairs. |
| BinaryMesh.Function | par_msquares.h:550-1078 | Without DUAL, one tessellated mesh. With DUAL, the inverted march without extrusion and the plain march, merged with SNAP and CONNECT as kept under HEIGHTS. |
| BinaryMesh.Dual | par_msquares.h:557-576 | The DUAL branch: the first mesh is the inverted march without extrusion, the second the plain march (extruded only under CONNECT with HEIGHTS), and the result is the two merged with SNAP and CONNECT as kept under HEIGHTS. |
| BinaryMesh.MembersOk | par_msquares.h:432 | Meshes of two well-formed lists are well formed. |
| BinaryMesh.GrayFlags | par_msquares.h:420-424 | The bands are marched without INVERT, DUAL or SNAP; CONNECT is as given, HEIGHTS and SIMPLIFY are kept. |
| BinaryMesh.MergeFlagsNonzero | par_msquares.h:431-435 | Each merge after the first band has CONNECT exactly when HEIGHTS kept it. |
| BinaryMesh.BandsSnoc | par_msquares.h:430-444 | One more tessellated band extends the tessellated bands. |
| BinaryMesh.BandsAt | par_msquares.h:430-444 | Each band in the list is the tessellation of its threshold interval. |
| BinaryMesh.BandsAll | par_msquares.h:430-444 | All bands are tessellated. |
| BinaryMesh.MarchBand | par_msquares.h:438-439 | A band's march gives one mesh, the tessellation of that band. |
| BinaryMesh.MergeBand | par_msquares.h:440 | Merging one more band onto the list gives the merge of all bands with the latest flags. |
| BinaryMesh.AddBand | par_msquares.h:430-444 | One iteration of the driver: march a band, merge it, turn CONNECT on. |
| BinaryMesh.GrayscaleMulti | par_msquares.h:411-447 | There are `nthresholds + 1` bands. Each is the tessellation of its threshold interval, with CONNECT from the second band on. The result is their merge with the last merge's flags. |
| Palette.OffsetIsProduct | par_msquares.h:1199 | Pixel `i` starts at byte `i * bpp`. |
| Palette.ColorOf | par_msquares.h:1200 | A pixel's colour word fits 32 bits. |
| Palette.PixelColorsGrow | par_msquares.h:1199-1207 | Each pixel's colour is among the image's colours, and a prefix's colours are among the whole's. |
| Palette.AscendingCard | par_msquares.h:1196-1207 | A strictly ascending table holds as many distinct colours as entries. |
| Palette.Search | par_msquares.h:1201 | `bsearch` on an ascending table finds the colour's position, or nothing exactly when the colour is absent. |
| Palette.Insert | par_msquares.h:1202-1205 | Appending a missing colour and re-sorting gives an ascending table with exactly one more entry, that colour. |
| Palette.Discover | par_msquares.h:1196-1207 | The table is the ascending set of the image's colours. It fails (the source's assert) exactly when there are more than 256. |
| Palette.TooManyColors | par_msquares.h:1202-1203 | 256 known colours and one more new one mean the image has more than 256 colours. |
| Palette.IndexesUnique | par_msquares.h:1209-1216 | With an ascending table only one remapping fits the pixels. |
| Palette.Remap | par_msquares.h:1209-1216 | Every pixel becomes the position of its colour in the table. |
| ColourMarch.RowStartsInImage | par_msquares.h:1274-1277 | A row's northern and southern sample lines lie inside the image. |
| ColourMarch.CornerInImage | par_msquares.h:1281-1290 | Every corner sample the colour marcher reads lies inside the image. |
| ColourMarch.CornerValues | par_msquares.h:1289-1317 | The corner colours of a cell are pixels of the colour table. |
| ColourMarch.CellCode | par_msquares.h:1291 | A cell's canonical case is below 64. |
| ColourMarch.CornerSlots | par_msquares.h:1292-1303 | A corner's triangle slots are whole triangles of cell slots. |
| ColourMarch.CornerEdges | par_msquares.h:1304-1315 | A corner's boundary slots are slots of its triangles. |
| ColourMarch.MinAlphaSkipsPrevious | par_msquares.h:1428-1432 | With colour 0 at alpha 1 and colour 1 at alpha 5, the source's loop gives colour 1 height 5, while the least alpha up to it is 1. |
| ColourMarch.TableCorners | par_msquares.h:1417-1423 | A corner's triangle corners follow its slot list, one per slot. |
| ColourMarch.Extrusions | par_msquares.h:1433-1442 | One extrusion point per boundary slot. |
| ColourMarch.ConnectorCorners | par_msquares.h:1443-1452 | Each boundary segment after the first adds two connector triangles (six corners). |
| ColourMarch.CornersAppend | par_msquares.h:1417-1423 | The corners of appended indices are appended corners. |
| ColourMarch.PlaceSlot | par_msquares.h:1346-1371 | A slot welds first to the northern neighbour's coincident point, then to the western's, and takes that neighbour's index for the partner slot; otherwise it becomes the next new point, at the colour's height. Its index addresses a point at that slot. |
| ColourMarch.PlaceCorner | par_msquares.h:1337-1372 | The point loop appends exactly the corner's new, non-welded points. It adds the slots below 8 to the cell mask, and every slot's index is a point at that slot. |
| ColourMarch.CornerFreshNext | par_msquares.h:1339-1371 | A slot yields a point only when it was not used before in the list and is not welded. |
| ColourMarch.EmitCorner | par_msquares.h:1417-1423 | The triangle loop's indices have the corner's table corners, in table order. |
| ColourMarch.LowestAlpha | par_msquares.h:1428-1432 | The extrusion height is the least alpha among colours 0..m (the corrected loop; see Findings). |
| ColourMarch.ConnectCorner | par_msquares.h:1433-1454 | The extrusion loop appends one extrusion point per boundary slot, at the corrected least alpha, and connectors with the reference connector corners. |
| ColourMarch.MarchCorner | par_msquares.h:1324-1455 | A corner of colour `m` adds exactly its reference trace to mesh `m` and its slots to the cell mask. |
| ColourMarch.CornerMeshAt | par_msquares.h:1324-1455 | A mesh grown by a corner's points, triangles and connectors holds that corner's trace on top of its own. |
| ColourMarch.AroundNeighbours | par_msquares.h:1329-1361 | The per-colour buffers give the weld tests the western and northern neighbours' masks and indices. |
| ColourMarch.EnterCell | par_msquares.h:1319-1321 | Clearing the current masks lets every colour lane enter the cell. |
| ColourMarch.LaneSkip | par_msquares.h:1323-1328 | A corner of another colour leaves a lane unchanged. |
| ColourMarch.LaneCorner | par_msquares.h:1323-1455 | A corner of colour `m` moves lane `m` one corner on. |
| ColourMarch.CornerStep | par_msquares.h:1323-1455 | A corner feeds the mesh of its colour and no other. |
| ColourMarch.LaneStash | par_msquares.h:1458-1469 | Storing a cell's mask and southern indices extends the lane's row buffer by one cell. |
| ColourMarch.StashLane | par_msquares.h:1458-1469 | The stash loop stores the cell in each lane's row buffer. |
| ColourMarch.LeaveCell | par_msquares.h:1485-1486 | Swapping the cell buffers makes the current cell the previous one. |
| ColourMarch.MarchCell | par_msquares.h:1316-1486 | One cell: every mesh gets what the cell gives its colour. |
| ColourMarch.SampleCell | par_msquares.h:1281-1291 | The sample indices move to the eastern grid line, and the corner colours are the cell's. |
| ColourMarch.ColumnStep | par_msquares.h:1280-1486 | One column keeps the loop state and, with SIMPLIFY, the cell's words. |
| ColourMarch.MarchColumns | par_msquares.h:1280-1487 | A row's columns bring every mesh to the end of the row. With SIMPLIFY the row's words are kept. |
| ColourMarch.ClearRow | par_msquares.h:1278 | Clearing the current row buffer (`memset`) is harmless at a row start. |
| ColourMarch.NextRow | par_msquares.h:1488-1489 | Swapping the row buffers sets up the next row, or ends the march. |
| ColourMarch.MarchRow | par_msquares.h:1267-1490 | A row of the march extends every mesh by the row's cells. |
| ColourMarch.NewMesh | par_msquares.h:1227-1236 | A new mesh of colour `m` is empty and has the colour's word. |
| ColourMarch.MarchGrid | par_msquares.h:1266-1490 | The march leaves every colour's mesh holding exactly that colour's reference trace, with extrusion heights at the corrected least alpha. With SIMPLIFY, every cell's words are kept. |
| ColourMesh.DonePrefix | par_msquares.h:1419 | Triangles emitted earlier in the raster order are a prefix of those emitted later. |
| ColourMesh.NoExtrusion | par_msquares.h:1426-1427 | Without CONNECT, and for colour 0, no connector corners are made. |
| ColourMesh.FullCell | par_msquares.h:1536-1538 | A cell whose four corners have colour `m` has code 0 and gives mesh `m` the two triangles of its square. |
| ColourMesh.CellRecordOf | par_msquares.h:1514-1539 | The record built from a cell's four words is full exactly when all four words have colour `m`, starts at the running triangle count, and counts the triangles of the corners of colour `m`. |
| ColourMesh.WordsRecord | par_msquares.h:1514-1539 | Such a record, read off the words the march stored, is the cell's reference record. |
| ColourMesh.WordsCountTrace | par_msquares.h:1520-1535 | The counts of the first `k` corner words of colour `m` add up to the triangles the first `k` corners emitted. |
| ColourMesh.CornerCount | par_msquares.h:1520-1535 | A corner adds its word's triangle count exactly when it has colour `m`. |
| ColourMesh.BuildRecords | par_msquares.h:1510-1540 | The record loop of one colour builds the reference records of the whole grid. |
| ColourMesh.GridCountIsDone | par_msquares.h:1510-1540 | The running count before a row is the number of triangles the march gave the mesh before that row. |
| ColourMesh.RecordGridOk | par_msquares.h:1510-1540 | The records of a colour address whole triangles of its mesh, and together they count every triangle. |
| ColourMesh.BlockFits | par_msquares.h:1536-1538 | A full cell's two triangles sit at its record's place in the mesh, with the square's corners. |
| ColourMesh.GridBlocksFit | par_msquares.h:1510-1540 | Every full cell of a colour's grid has its square at its record's place. |
| ColourMesh.RunQuadSpansRun | par_msquares.h:1597-1614 | The quad replacing a run spans it: north-west of its first northern cell, north-east of its last, south-west of its first southern cell, south-east of its last. |
| ColourMesh.SimplifiedCorners | par_msquares.h:1573-1653 | The rebuilt triangles address the mesh's points, and their corners are the simplification of the original corners. |
| ColourMesh.MarchedReduced | par_msquares.h:1570-1572 | A mesh with nothing to eliminate is left as marched. |
| ColourMesh.RebuiltIndices | par_msquares.h:1573-1653 | A rebuilt index list (output then zeros) addresses the mesh's points and has the simplified corners. |
| ColourMesh.SimplifiedMain | par_msquares.h:1573-1656 | The rebuilt list gives the simplified main triangles, with `ntriangles` reduced by the eliminated count. |
| ColourMesh.SimplifyMesh | par_msquares.h:1507-1656 | SIMPLIFY on one colour's mesh leaves it reduced: connectors apart, main triangles simplified when anything is eliminated, untouched otherwise. |
| ColourMesh.AppendedTessellated | par_msquares.h:1147-1169 | Appending a reduced mesh's connectors finishes it. Colour 0 has none. |
| ColourMesh.FinalizedTessellated | par_msquares.h:1142-1171 | Finalizing reduced meshes finishes every one of them. |
| ColourMesh.SimplifyAll | par_msquares.h:1507-1657 | SIMPLIFY leaves every colour's mesh reduced. |
| ColourMesh.ColorMulti | par_msquares.h:1173-1663 | Fails exactly when the image has more than 256 colours. Otherwise there is one mesh per colour of the ascending colour table: the colour's word, the created points, the reference (or simplified) triangles, then the connector triangles. This is the corrected colour path: corrected least alpha and corrected finalize. |

## Left out

- Floating-point geometry is not modelled. This covers the nominal coordinates and their normalisation by `max(width, height)`, the refinement of midpoints toward the exact crossing, the `/255` alpha scaling, the `1 - y` flip of the colour marcher, and the min/max Z interpolation of SNAP. Points are nominal slot positions in half-cell units. Z is the height callback applied to the nominal position, the alpha byte (or least alpha), or the level index.
- The height callback (`heightfn`, `gray_height`, `color_height`) and the inside test are parameters of the model.
- `gray_inside` and `gray_multi_inside` compare floats. The band test is modelled on integer data, and `par_msquares_grayscale` and `par_msquares_color` are only the callers that set up that test.
- `qsort` and `bsearch` are modelled by their results: insertion at the sorted place, and binary search.
- Memory management is not modelled: `calloc`/`free`, `par_msquares_free`, the worst-case capacity asserts (`npts <= maxpts`, `ntriangles <= maxtris`), and the `mapping` buffer sized by triangle count. Zero-initialised buffers are modelled as zero-filled sequences.
- Fixed-width integers are not modelled. Point indices are unbounded naturals, not `uint16_t`, so overflow past 65535 points is not modelled. The `edgemap` is a map rather than an array with the 0xffff sentinel. The packing of the eight per-cell colour and count bytes into two `uint32_t` words is modelled as two sequences of four entries.
- Meshes are values, and mesh lists are sequences. The source updates heap structs in place, shared through pointers. Each mesh belongs to one list at a time, so the model does not capture aliasing between lists. The `PAR_SWAP` of buffers is a swap of values.
- SIMPLIFY with an odd number of rows drops the last row's triangles. The allocated tail is left as zero indices, which the model states but does not call a preservation of triangles.
- The colour marcher's connector layout (a duplicate and an original at the start of the second triangle) is stated as the source writes it. It is not claimed to match the binary layout that `par_msquares_merge` assumes.
- `ColourMesh.ColorMulti` takes the source's asserts on `bpp`, HEIGHTS, SNAP, INVERT and DUAL as preconditions. The 256-colour assert is modelled as the `None` result. Like the code, it does not demand that the sizes are multiples of `cellsize`.
- `ColourMesh.ColorMulti` models the corrected colour path, not the code as written: it composes the two corrected halves of the Findings below, `ColourMarch.LowestAlpha` for the extrusion height and `Meshes.Finalize` for the connectors. Through `ColourMarch.MarchGrid` and `ColourMarch.ConnectCorner` it differs from the source on two classes of input. (1) With HEIGHTS and CONNECT, colour 1 gets extrusion points at the least alpha of colours 0 and 1, where the source gives them colour 1's own alpha. (2) With CONNECT, when mesh 1 has no connector triangles but a later mesh has some, the model appends the later mesh's connectors, where the source leaves them pending in `conntri`. This happens, for example, when colour 1 occurs only at pixels that are not sampled, with `cellsize` of 2 or more. The as-written behaviour is stated only by `ColourMarch.MinAlphaAsWritten`/`ColourMarch.MinAlphaSkipsPrevious` and `Meshes.FinalizedAsWritten`/`Meshes.FinalizeGuardLosesConnectors`.
- `ColourMarch.MarchGrid` states the reference trace with the corrected extrusion height (`ColourMarch.MinAlpha`, the least alpha of colours `0..m`). For colour 1 under HEIGHTS this is not the height the source's loop computes; see the `ColourMesh.ColorMulti` line above.
- `ColourMarch.ConnectCorner` places extrusion points at the corrected least alpha. For colour 1 under HEIGHTS the source's loop gives a different height; see the `ColourMesh.ColorMulti` line above.
- `BinaryMesh.Tessellated` does not state, with SIMPLIFY, that the compacted points are the march's points in their old order. `Compaction.Compact` states this of the compaction step itself. The march's full point list, with originals and copies interleaved, has no reference definition to state it against. What the predicate does state is that every point is one the marcher creates at its position, and that the main triangles use no copy.
- `BinaryMesh.Function` follows the code, not the prose of the library's header. A merge levels the meshes whenever its flag word is nonzero, so CONNECT without SNAP (after DUAL with HEIGHTS, or in `par_msquares_grayscale_multi`) also assigns levels.
- `ColourMesh.CellRecordOf` counts the four corners with a loop, where the source writes the four tests out one after the other.
- The test programs are not part of this model: `test/test_shapes.c` exercises another library and writes OBJ files, and `test/test_linkage.cpp` only checks linkage.

## Findings

| source | as written | input that shows it | evidently intended | confidence | as-written member | corrected member |
|---|---|---|---|---|---|---|
| par_msquares.h:1144-1146 | `par_msquares_internal_finalize` returns early when mesh 1 has no connector triangles, even if later meshes have some | three colours where mesh 1 has no connectors and mesh 2 has a pair pending; mesh 2 keeps only its main triangles | append every later mesh's connectors | not executed | Meshes.FinalizeGuardLosesConnectors | Meshes.Finalize |
| par_msquares.h:1428-1432 | the `minalpha` loop runs `idx < color - 1`, so it skips the colour just before `color` | colour 0 with alpha 1 and colour 1 with alpha 5: colour 1's extrusion points get height 5, its own alpha, a wall of zero height | least alpha among colours `0..color` | not executed | ColourMarch.MinAlphaSkipsPrevious | ColourMarch.LowestAlpha |
