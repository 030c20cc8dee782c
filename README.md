# clray core, modelled in Dafny

clray is an OpenCL ray tracer. Its host side does four things:

- It loads Wavefront OBJ scenes and their MTL material libraries into a `Scene` of meshes, faces and materials.
- It lays those records out as raw words for upload to the device.
- It provides small vector and 4×4 matrix libraries.
- It has a CPU reference tracer (`dbgray.cc`), which walks a kd-tree, shades hits with shadow and reflection rays, and gathers per-frame statistics.

This project models that core and proves properties of it:

- **Vectors** (`vectors.dfy`): the `Vector3` operators, `dot` and `cross` as functions on a value type. The `Vector3` and `Vector2` objects are classes whose constructors and `normalize` assign fields.
- **Records** (`records.dfy`):
  - `Vertex`, `Face` and `Material` with their word layout and its decoders;
  - the kd-tree index macros and the `KDCLEAR`/`KDUSED` flag;
  - the `ACCEL_PARAM_*` ids;
  - `Mesh` as a class.
- **Scenes** (`scene.dfy`):
  - the tolerance equality of faces;
  - `add_mesh` and the count and accessor queries;
  - `Scene::load(FILE*)` as a method over the lines of the file. It is proved against a specification function of the loader's state.
- **ObjText** (`objtext.dfy`): `get_cmd`, `parse_vec`, `parse_color`, `parse_face` and `parse_map`, the negative-index fix-up and the quad split. The `strtok` stream becomes the sequence of a line's tokens.
- **ObjFiles** (`obj.dfy`):
  - the `obj_file` being filled (a class);
  - `cons_mesh`;
  - the file-wide `matnames` table;
  - the loader's state machine as functions, with its lemmas.
- **MtlFiles** (`mtl.dfy`): `obj_mat`, its `reset`, and `read_materials` as a state machine over lines.
- **Matrices** (`matrix.dfy`): `Matrix4x4` as a class over a 16-entry array. Each operation is specified by a function on `seq<real>`. The adjugate identity is proved, and so is "the inverse is an inverse".
- **DbgRay** (`dbgray.dfy`): the reference tracer. Its globals are the fields of a `Tracer` class, and every method is proved against a specification function:
  - `find_intersection`, `ray_aabb_test`, `ray_triangle_test` and `calc_bary`;
  - `shade` and `trace_ray`;
  - `transform`;
  - `dbg_render`'s statistics fold.
- **OpenCL** (`ocl.dfy`):
  - the `CLProgram` argument table and its binding loop in `build`;
  - `unmap_mem_buffer`;
  - `clstrerror`;
  - `print_memsize`.

`float` is modelled as `real` throughout. Calls into the C library and OpenCL are parameters of the model:

- `sqrt` is a given square root (`IsSqrt`), and `pow`, `reflect` and the reciprocal are given functions (`DbgRay.Kernels`).
- `atoi`/`atof` and `is_int`/`is_float` are given partial functions (`ObjText.Numbers`).
- The material libraries are a function from a library name to its lines, if it can be opened.
- `clBuildProgram`, `clCreateKernel`, `clSetKernelArg` and `create_mem_buffer` become results passed in.
- The error-string table `ocl_errstr` is a parameter.

## Model

| member | source | states |
|---|---|---|
| Vectors.Normalized | src/vector.cc:21-29 | a zero length leaves the vector as it is; otherwise every component is divided by the same positive length and the result has squared length 1 |
| Vectors.Add | src/vector.inl:13-16 | the component-wise sum; `SubUndoesAdd` relates it to `Sub` |
| Vectors.Sub | src/vector.inl:18-21 | the component-wise difference; `SubIsAddNeg` says it is adding the negation |
| Vectors.Mul | src/vector.inl:23-26 | the component-wise product; `ScaleIsMul` and `DivUndoesMul` relate it to `Scale` and `Div` |
| Vectors.Div | src/vector.inl:28-31 | the component-wise quotient, for non-zero divisor components; `DivUndoesMul` says it undoes `Mul` |
| Vectors.Neg | src/vector.inl:34-37 | every component negated; `NegInvolution` says negating twice is the identity |
| Vectors.Scale | src/vector.inl:39-42 | every component times the same factor; `ScaleIsMul` says it is `Mul` by (s, s, s) |
| Vectors.Dot | src/vector.inl:45-48 | the sum of the component products; `DotCommutes` and `DotSelfIsLengthSq` state its symmetry and its value on one vector |
| Vectors.Cross | src/vector.inl:50-53 | the cross product; `CrossAntiCommutes`, `CrossSelfIsZero` and `CrossOrthogonal` state its algebra |
| Vectors.LengthSq | src/vector.inl:8-11 | the sum of the squared components; `DotSelfIsLengthSq` says it is `Dot(v, v)` and non-negative |
| Vectors.NormalizePreservesSigns | src/vector.cc:21-29 | normalizing keeps the sign of every component |
| Vectors.Vector3.Normalize | src/vector.cc:21-29 | the fields become `Normalized` of their old values |
| Vectors.Vector3.constructor | src/vector.cc:12 | all components start at zero |
| Vectors.Vector3.FromXYZ | src/vector.cc:14-19 | stores exactly x, y and z |
| Vectors.Vector2.constructor | src/vector.cc:3 | both components start at zero |
| Vectors.Vector2.FromXY | src/vector.cc:5-9 | stores exactly x and y |
| Vectors.SubIsAddNeg | src/vector.inl:13-37 | `a - b` is `a + (-b)` |
| Vectors.SubUndoesAdd | src/vector.inl:13-21 | `(a + b) - b == a` |
| Vectors.NegInvolution | src/vector.inl:34-37 | negating twice gives the vector back |
| Vectors.ScaleIsMul | src/vector.inl:23-26 | scaling by s is the component-wise product with (s, s, s) |
| Vectors.DivUndoesMul | src/vector.inl:23-31 | dividing a component-wise product by its non-zero factor gives the vector back |
| Vectors.DotCommutes | src/vector.inl:45-48 | `dot` is commutative |
| Vectors.DotSelfIsLengthSq | src/vector.inl:8-11 | `dot(a, a)` is `lengthsq(a)`, and it is not negative |
| Vectors.CrossAntiCommutes | src/vector.inl:50-53 | `cross(a, b) == -cross(b, a)` |
| Vectors.CrossSelfIsZero | src/vector.inl:50-53 | `cross(a, a)` is the zero vector |
| Vectors.CrossOrthogonal | src/vector.inl:45-53 | `cross(a, b)` is orthogonal to both a and b |
| Records.Float4Words | src/scene.h:8-13 | a `float[4]` is four float words in order |
| Records.VertexWords | src/scene.h:8-13 | a `Vertex` is 16 words: pos, normal, tex and padding, 4 each |
| Records.FaceWords | src/scene.h:15-22 | a `Face` is 56 words: the three vertices, then the normal at word 48 and `matid` at word 52 |
| Records.MaterialWords | src/scene.h:24-29 | a `Material` is 12 words: kd, ks, then kr, kt, spow and padding |
| Records.Float4Of | src/scene.h:8-13 | four words decode to a `float[4]` exactly when all are float words |
| Records.Float4RoundTrip | src/scene.h:8-13 | decoding the words of a `float[4]` gives it back |
| Records.VertexRoundTrip | src/scene.h:8-13 | decoding the layout of a `Vertex` gives it back |
| Records.FaceRoundTrip | src/scene.h:15-22 | decoding the layout of a `Face` gives it back |
| Records.MaterialRoundTrip | src/scene.h:24-29 | decoding the layout of a `Material` gives it back |
| Records.KdParent | src/scene.h:51 | the parent index is not negative, and it is smaller than any positive index |
| Records.KdLeft | src/scene.h:52 | the left child index stays inside `int` |
| Records.KdRight | src/scene.h:53 | the right child index is positive and stays inside `int` |
| Records.ParentOfChildren | src/scene.h:51-53 | `KDPARENT(KDLEFT(x)) == x` and `KDPARENT(KDRIGHT(x)) == x` |
| Records.ChildrenAdjacent | src/scene.h:52-53 | `KDRIGHT(x) == KDLEFT(x) + 1`; left children are even and right children odd |
| Records.AxisUsed | src/scene.h:50 | `KDUSED`: a node is in use when its axis is not negative |
| Records.SplitAxesAreUsed | src/scene.h:43-50 | `KDUSED` holds for the axes X, Y and Z |
| Records.KdNode.Clear | src/scene.h:49-50 | after `KDCLEAR` the axis is -1 and `KDUSED` is false |
| Records.KdNode.constructor | src/scene.h:55-65 | the node holds the given axis; `KDNode()` is declared but defined nowhere in the code, so the model's constructor takes the axis instead of inventing a default |
| Records.AccelParamId | src/scene.h:106-113 | every accel parameter id lies in 0..3, below `NUM_ACCEL_PARAMS` (4) |
| Records.AccelParamOf | src/scene.h:106-113 | an id names a parameter exactly when it is in 0..3 |
| Records.AccelParamIdRoundTrip | src/scene.h:106-113 | ids and parameters are in one-to-one correspondence |
| Records.Mesh.constructor | src/scene.h:31-34 | a mesh holds the given faces and material id |
| Scenes.FaceEquals | src/scene.cc:4-21 | true exactly when, for all three vertices, position and normal x, y and z, and the face normal's x, y and z, each differ by less than 1e-8 |
| Scenes.FacesMatchReflexive | src/scene.cc:4-21 | every face equals itself |
| Scenes.FacesMatchSymmetric | src/scene.cc:4-21 | face equality is symmetric |
| Scenes.FacesMatchSeesOnlyGeometry | src/scene.cc:4-21 | texcoords, `matid`, fourth components and padding do not affect equality |
| Scenes.FacesMatchNotTransitive | src/scene.cc:4 | the tolerance equality is not transitive |
| Scenes.Stamped | src/scene.cc:26-28 | every face gets the given `matid`, and nothing else of any face changes |
| Scenes.StampedIdempotent | src/scene.cc:26-28 | stamping twice is stamping once |
| Scenes.Scene.constructor | src/scene.h:80-86 | `Scene()` is declared here and defined nowhere in the source; the empty scene (no meshes, no materials, no tree) is this model's own choice |
| Scenes.Scene.AddMesh | src/scene.cc:23-31 | the mesh's faces are stamped with its `matid` and nothing else changes in them; it is appended as the last mesh; the earlier meshes and the materials are unchanged; the result is true |
| Scenes.Scene.NumMeshes | src/scene.cc:33-36 | the number of meshes |
| Scenes.Scene.NumMaterials | src/scene.cc:47-50 | the number of materials |
| Scenes.Scene.NumFaces | src/scene.cc:38-45 | the sum of the face counts of all meshes |
| Scenes.TotalFacesAppend | src/scene.cc:38-45 | appending a mesh adds its face count to the total |
| Scenes.TotalFacesNonNegative | src/scene.cc:38-45 | the face total is not negative |
| Scenes.Scene.Materials | src/scene.cc:52-66 | null exactly when the library is empty, otherwise the first material (both overloads) |
| Scenes.Scene.Load | src/mesh.cc:134-313 | the outcome, the new meshes' faces and material ids, and the material-name table are those of the loader's specification `LoadAll`; earlier meshes are kept and the materials are unchanged |
| Scenes.Scene.ReadLines | src/mesh.cc:145-302 | the line loop refines `LoadLines` and stops at the first grouping (an `o`/`g` line with pending faces) whose pending faces refer past the end of a list |
| Scenes.Scene.ReadLine | src/mesh.cc:149-301 | one line refines `LoadLine`; `prev_cmd` is updated only when the line is not skipped |
| Scenes.Scene.Apply | src/mesh.cc:165-299 | the command switch refines `LineEffect` |
| Scenes.Scene.FlushMesh | src/mesh.cc:196-203 | pending faces become one new mesh with the current material's id, as `Flush` says |
| ObjText.CmdNames | src/mesh.cc:13-48 | the command table has `CMD_UNK` (22) names |
| ObjText.UpperChar | src/mesh.cc:449 | `toupper`: lower-case ASCII letters become upper case, and every other character is unchanged |
| ObjText.Upper | src/mesh.cc:449 | upper-cases every character, keeping the length |
| ObjText.IndexOf | src/mesh.cc:451-456 | the position found is at most the table's length |
| ObjText.IndexOfFirst | src/mesh.cc:451-456 | the position is that of the first equal entry, and it equals the length exactly when no entry is equal |
| ObjText.CommandOf | src/mesh.cc:446-457 | a command code lies in 0..`CMD_UNK` |
| ObjText.GetCmd | src/mesh.cc:446-457 | upper-cases the token in place and returns `CommandOf` of the original |
| ObjText.CommandOfFirst | src/mesh.cc:446-457 | the code is the index of the first name equal to the upper-cased token, and `CMD_UNK` exactly when none is |
| ObjText.UpperIdempotent | src/mesh.cc:449 | upper-casing twice is upper-casing once |
| ObjText.CommandIgnoresCase | src/mesh.cc:446-457 | a token and its upper-case spelling name the same command |
| ObjText.CommandNeverMinusOne | src/mesh.cc:161 | `get_cmd` never returns -1, so the skip test never fires |
| ObjText.ToInt32 | src/mesh.cc:272-278 | the conversion agrees with the exact value modulo 2^32, and equals it when that value fits in an `int` |
| ObjText.ParseVec | src/mesh.cc:473-500 | fails exactly when one of the first two tokens is missing or not a number; z is 0 when the third is absent |
| ObjText.VecOf | src/mesh.cc:473-500 | the vector `parse_vec` yields, or `None` when it fails; `ParseVec` is proved to compute it |
| ObjText.TexCoord | src/mesh.cc:184 | a `vt` line stores y as 1 - y and keeps x and z |
| ObjText.TexCoordInvolution | src/mesh.cc:184 | flipping twice restores the coordinate |
| ObjText.ParseColor | src/mesh.cc:502-526 | fails exactly when the first token is missing or not a number, and then only x is kept; with fewer than three numbers y and z are set to x |
| ObjText.ColorOf | src/mesh.cc:502-526 | the result and colour `parse_color` leaves; `ParseColor` is proved to compute it |
| ObjText.ParseMap | src/mesh.cc:578-587 | the last remaining token, or "" when there is none |
| ObjText.ZeroBased | src/mesh.cc:551 | positive indices are decremented; zero, negative and `INVALID_IDX` stay |
| ObjText.SlashFrom | src/mesh.cc:554-556 | the scan stops at the first '/' at or after the start, or at the end |
| ObjText.SubField | src/mesh.cc:557-572 | the scan position after a sub-field stays within the token |
| ObjText.ParseFace | src/mesh.cc:528-576 | succeeds exactly when the first three tokens are integers; `elem` is 4 when a fourth is one, otherwise 3; each corner holds its token's indices |
| ObjText.ParseCorner | src/mesh.cc:541-573 | one corner token is read as `Corner` says |
| ObjText.Corner | src/mesh.cc:541-573 | the indices of one corner token, or `INVALID_IDX` for all three when it is absent; `CornerV`, `CornerVT`, `CornerVN` and `CornerVTN` state its four forms |
| ObjText.CornerV | src/mesh.cc:541-573 | `v` has no texture index and no normal index (`INVALID_IDX`) |
| ObjText.CornerVT | src/mesh.cc:541-573 | `v/t` has a texture index and no normal index |
| ObjText.CornerVN | src/mesh.cc:541-573 | `v//n` has no texture index but does have the normal index |
| ObjText.CornerVTN | src/mesh.cc:541-573 | `v/t/n` has both indices |
| ObjText.FixIndex | src/mesh.cc:270-280 | non-negative indices and `INVALID_IDX` stay; other negative ones become the list size plus the index |
| ObjText.FixIndexInRange | src/mesh.cc:270-280 | a relative index that reaches back no further than the list's start lands inside the list |
| ObjText.FixIndices | src/mesh.cc:270-280 | every corner's v, n and t are resolved against the vertex, normal and texcoord list sizes respectively |
| ObjText.Triangles | src/mesh.cc:283-294 | a triangle is stored once; a quad becomes (0, 1, 2) and (0, 2, 3) with matching n and t |
| ObjFiles.ObjFile.constructor | src/mesh.cc:70-74 | an empty `obj_file` |
| ObjFiles.ObjFile.ReadObjLine | src/mesh.cc:166-186 | `v`, `vn`, `vt`, `usemtl` and `f` lines change the `obj_file` as `ObjEffect` says |
| ObjFiles.ObjFile.AddFace | src/mesh.cc:264-295 | a face that parses is fixed up and stored, a quad as two records; otherwise nothing changes |
| ObjFiles.ObjFile.Store | src/mesh.cc:283-294 | appends `Triangles` of the face |
| ObjFiles.Padded | src/mesh.cc:321-328 | an empty list gets one zero placeholder; a non-empty one is unchanged |
| ObjFiles.MeshFaces | src/mesh.cc:332-352 | one `Face` per face record |
| ObjFiles.ConsFaceCorners | src/mesh.cc:335-350 | each corner takes its position from `v`, and its normal and texcoord from their index, or from slot 0 when the index is negative; the face normal, `matid` and padding come from the blank face |
| ObjFiles.Placeholders | src/mesh.cc:321-350 | without `vn` or `vt` lines, every corner gets a zero normal and a zero texcoord |
| ObjFiles.ConsMesh | src/mesh.cc:315-362 | builds `MeshFaces` and leaves the `obj_file`, including `vn` and `vt`, exactly as it found it |
| ObjFiles.BuildFace | src/mesh.cc:333-351 | the loop body builds `ConsFace` |
| ObjFiles.MatLookup | src/mesh.cc:198 | `matnames[name]` gives the stored id, and inserts 0 for an unknown name |
| ObjFiles.RegisteredLookup | src/mesh.cc:236-252 | a name defined in the library maps to its last position there; other names keep their ids |
| ObjFiles.MaterialNames.constructor | src/mesh.cc:112 | the table starts empty |
| ObjFiles.MaterialNames.Get | src/mesh.cc:198 | the lookup as `MatLookup` says, including the insertion |
| ObjFiles.MaterialNames.Register | src/mesh.cc:236-252 | each library material's name maps to its index |
| ObjFiles.Flush | src/mesh.cc:196-203 | with pending faces, one mesh is added and the face list is emptied; otherwise nothing changes; earlier meshes stay |
| ObjFiles.LoadLine | src/mesh.cc:149-301 | one line: nothing after an overrun or on an empty line, otherwise `LineEffect`, with `prev_cmd` set only on lines that reach the end of the switch |
| ObjFiles.LoadLines | src/mesh.cc:145-302 | the lines in order; `OverrunPrefix`, `AddedGrows` and `AddedMeshesNonEmpty` are proved about it |
| ObjFiles.LoadAll | src/mesh.cc:134-313 | the lines, then the final grouping unless an overrun stopped the load; `Scenes.Scene.Load` is proved to refine it |
| ObjFiles.LineEffect | src/mesh.cc:165-299 | no command changes `prev_cmd` itself |
| ObjFiles.MeshesData | src/mesh.cc:196-203 | one entry per mesh |
| ObjFiles.OverrunPrefix | src/mesh.cc:145-302 | once a grouping of the first lines meets pending faces that refer past the end of a list, the load of all the lines stops there too; a face may refer to a `v` line that comes later but before its grouping |
| ObjFiles.AddedMeshesNonEmpty | src/mesh.cc:196 | every mesh the loader adds has at least one face |
| ObjFiles.LineKeepsNonEmpty | src/mesh.cc:196 | one line adds only non-empty meshes |
| ObjFiles.FlushNonEmpty | src/mesh.cc:305 | the final grouping adds only a non-empty mesh |
| ObjFiles.AddedGrows | src/mesh.cc:199 | meshes already added stay a prefix |
| ObjFiles.LineAddedGrows | src/mesh.cc:188-203 | one line of the file keeps the meshes added so far as a prefix |
| ObjFiles.GroupAfterGroup | src/mesh.cc:188-192 | an `o` or `g` right after one of them groups nothing |
| ObjFiles.QuadSplit | src/mesh.cc:264-295 | a quad `f` line stores the two fixed-up triangles (0, 1, 2) and (0, 2, 3) |
| ObjFiles.SkippedKeepsPrev | src/mesh.cc:166-169 | a `v` line that does not parse changes nothing, `prev_cmd` included |
| MtlFiles.MtlLine | src/mesh.cc:385-437 | a line finishes at most the current material, and only a named one |
| MtlFiles.Attribute | src/mesh.cc:397-433 | what `Ka`, `Kd`, `Ks`, `Ns`, `Ni`, `d`, `Tr` and `map_Kd` set; `Opacity` and `IgnoredLine` state two of its cases |
| MtlFiles.MaterialsOf | src/mesh.cc:364-444 | the finished materials, then the last one if it has a name; `MaterialsAreNamed` says every one is named and `ReadMaterials` is proved to compute it |
| MtlFiles.MtlStep | src/mesh.cc:368-438 | one pass of the loop refines `MtlLine` |
| MtlFiles.SetAttribute | src/mesh.cc:397-433 | `Ka`, `Kd`, `Ks`, `Ns`, `Ni`, `d`/`Tr` and `map_Kd` set their fields as `Attribute` says |
| MtlFiles.ReadMaterials | src/mesh.cc:364-444 | always succeeds, and yields `MaterialsOf` the lines |
| MtlFiles.FinishedAreNamed | src/mesh.cc:386-395 | every material finished at `newmtl` has a name |
| MtlFiles.MaterialsAreNamed | src/mesh.cc:386-442 | only named materials reach the library |
| MtlFiles.NewMaterial | src/mesh.cc:386-394 | a named current material is pushed and reset: ambient and diffuse 0.5, specular 0, shininess 0, ior = alpha = 1, no textures; an unnamed one is kept; the new name is taken |
| MtlFiles.NewMaterialWithoutName | src/mesh.cc:386-395 | `newmtl` without a name still finishes a named material |
| MtlFiles.Opacity | src/mesh.cc:421-429 | `d x` sets alpha to x and `Tr x` sets it to 1 - x; nothing else changes |
| MtlFiles.IgnoredLine | src/mesh.cc:435-436 | other commands leave the state alone |
| Matrices.Coords | src/matrix.cc:4 | every slot 0..15 is `M(x, y)` for some x, y in 0..3 |
| Matrices.Idx | src/matrix.cc:4 | the macro `M(x, y)`: slot y*4 + x; `Coords` and `IdxInjective` make it a bijection of {0..3}² onto 0..15 |
| Matrices.Det | src/matrix.cc:45-64 | the cofactor expansion along row 0; `DetIsLeibniz` equates it with the Leibniz formula and `DetIdentity` gives det(I) = 1 |
| Matrices.AdjointOf | src/matrix.cc:66-132 | a 16-entry matrix; `AdjointAt` puts the signed minor of (j, i) at (i, j), and `AdjugateEntry` gives M·adj(M) = det(M)·I |
| Matrices.Inverted | src/matrix.cc:134-143 | with det ≠ 0, a 16-entry matrix: the adjoint divided by the determinant; `InvertedIsInverse` proves M·M⁻¹ = I |
| Matrices.Divided | src/matrix.cc:140-142 | with a non-zero divisor, a 16-entry matrix holding every entry divided by it |
| Matrices.IdxInjective | src/matrix.cc:4 | `M(x, y)` maps {0..3}² one-to-one into 0..15 |
| Matrices.IdentityEntries | src/matrix.cc:6-10 | 1 at indices 0, 5, 10 and 15, and 0 elsewhere |
| Matrices.IdentityAt | src/matrix.cc:39-43 | entry (i, j) of the identity is 1 exactly on the diagonal |
| Matrices.Transposed | src/matrix.cc:145-155 | the transpose is a 16-entry matrix |
| Matrices.TransposedAt | src/matrix.cc:145-155 | entry (i, j) of the transpose is entry (j, i) of the original |
| Matrices.TransposeInvolution | src/matrix.cc:145-155 | transposing twice restores the matrix |
| Matrices.TransposeFixesDiagonal | src/matrix.cc:145-155 | diagonal entries never change |
| Matrices.MinorMatrix | src/matrix.cc:70-120 | entry (x, y) holds the 3×3 minor of (x, y) |
| Matrices.AdjointAt | src/matrix.cc:66-132 | entry (i, j) of the adjoint is the minor of (j, i), negated exactly when i + j is odd |
| Matrices.DetIsLeibniz | src/matrix.cc:45-64 | the expansion along index-0 entries equals the Leibniz formula of the determinant |
| Matrices.AdjugateEntry | src/matrix.cc:66-132 | the matrix times its adjoint is det on the diagonal and 0 elsewhere |
| Matrices.InvertedIsInverse | src/matrix.cc:134-143 | with a non-zero determinant, the matrix times its inverse is the identity |
| Matrices.InvertIdentity | src/matrix.cc:134-143 | inverting the identity gives the identity |
| Matrices.DetIdentity | src/matrix.cc:45-64 | the identity has determinant 1 |
| Matrices.ProductIdentityLeft | src/matrix.cc:39-43 | the identity is a left unit of the product |
| Matrices.Matrix4x4.constructor | src/matrix.cc:6-10 | the default matrix is the identity |
| Matrices.Matrix4x4.FromArray | src/matrix.cc:12-15 | copies the first 16 values unchanged |
| Matrices.Matrix4x4.FromEntries | src/matrix.cc:17-26 | argument mXY lands at index Y*4+X |
| Matrices.Matrix4x4.Copy | src/matrix.cc:28-31 | copies all 16 entries |
| Matrices.Matrix4x4.Assign | src/matrix.cc:33-37 | overwrites all 16 entries with those of the source |
| Matrices.Matrix4x4.Identity | src/matrix.cc:39-43 | overwrites the buffer with the identity |
| Matrices.Matrix4x4.Determinant | src/matrix.cc:45-64 | the determinant (the Leibniz formula) of the entries |
| Matrices.Matrix4x4.Transpose | src/matrix.cc:145-155 | the buffer becomes the transpose of its old contents |
| Matrices.Matrix4x4.Adjoint | src/matrix.cc:66-132 | a fresh matrix whose entry (i, j) is the signed minor of (j, i) |
| Matrices.Matrix4x4.AlternateSigns | src/matrix.cc:124-129 | entry `M(i, j)` is negated exactly when i + j is odd |
| Matrices.Matrix4x4.Invert | src/matrix.cc:134-143 | every entry becomes the adjoint's entry divided by det, and the old matrix times the new one is the identity |
| DbgRay.Bary | src/dbgray.cc:347-378 | barycentric coordinates are never negative, and all zero for a degenerate triangle |
| DbgRay.Slab | src/dbgray.cc:272-280 | the entry and exit parameters of one slab, the near plane chosen by the direction's sign; `SlabContains` says a point strictly inside the slab lies strictly between them |
| DbgRay.AabbHit | src/dbgray.cc:258-300 | the box test; `AabbHitIsConservative` says it never rejects a segment through the open box, and `AabbHitAcceptsAMiss` exhibits a miss it accepts |
| DbgRay.PlaneT | src/dbgray.cc:316-320 | the parameter of the ray's hit on the face plane, for a ray not parallel to it |
| DbgRay.Unit | src/dbgray.cc:342 | `normalize` with the given square root; `Vectors.Normalized` states its squared length is 1 |
| DbgRay.TriangleHit | src/dbgray.cc:302-345 | the triangle test's three rejections and its hit; `Tracer.RayTriangleTest` is proved to compute it and `DegenerateIsMissed` says a degenerate face is never hit |
| DbgRay.LeafBest | src/dbgray.cc:248-255 | the leaf scan's best hit; `LeafBestIsFirstNearest` ties it to the first nearest accepted hit |
| DbgRay.Nearest | src/dbgray.cc:221-256 | the kd-tree walk's hit; `NearestIsFirstNearest` ties it to the first nearest of all candidates and `NearestFaceBelow` bounds its face index |
| DbgRay.TriangleTests | src/dbgray.cc:221-256 | the triangle tests of a walk: one per face of every leaf whose box is hit; `Tracer.FindIntersection` is proved to count them |
| DbgRay.ViewDir | src/dbgray.cc:167 | `-raydir / RAY_MAG`, component by component |
| DbgRay.LightTerm | src/dbgray.cc:151-187 | one light's diffuse and specular terms and counts; `LightCounts` bounds the counts and `Tracer.Illuminate` is proved to compute it |
| DbgRay.Lights | src/dbgray.cc:147-188 | the light loop's sums from black; `LightCounts` gives one shadow ray per light with shadows on and none with them off |
| DbgRay.Transform | src/dbgray.cc:380-387 | the column-major matrix applied to (v, 1); `TransformIdentity` and `TransformIsAffine` state its algebra |
| DbgRay.TransformRay | src/dbgray.cc:389-393 | the origin transformed by `xform` and the direction by the inverse transpose |
| DbgRay.Stats | src/dbgray.cc:71-102 | the statistics after the given pixels; `StatsSums`, `StatsExtremes` and `MinimaBelowMaxima` state its sums and extremes |
| DbgRay.Picture | src/dbgray.cc:83 | three channels per pixel; `PictureLayout` puts pixel i at 3i..3i+2 |
| DbgRay.BaryAtFirstVertex | src/dbgray.cc:347-378 | at the first vertex of a non-degenerate triangle the coordinates are (1, 0, 0) |
| DbgRay.DegenerateIsMissed | src/dbgray.cc:328-358 | a triangle whose projected area is below `EPSILON` is never hit |
| DbgRay.Tracer.RayTriangleTest | src/dbgray.cc:302-345 | counts one triangle test; rejects when abs(n·d) ≤ `EPSILON`, when t is outside [`EPSILON`, 1], or when the barycentric sum is outside 1 ± `EPSILON`; the surface point is written only on a hit |
| DbgRay.SlabContains | src/dbgray.cc:272-280 | a point strictly between a slab's planes at parameter t puts t strictly inside the slab's interval |
| DbgRay.AabbHitIsConservative | src/dbgray.cc:258-300 | the box test never rejects a segment that passes through the open box at some t in (0, 1) |
| DbgRay.AabbHitAcceptsAMiss | src/dbgray.cc:289-298 | the z slab does not narrow the interval, so the test also accepts a segment that misses the box |
| DbgRay.Tracer.RayAabbTest | src/dbgray.cc:258-300 | counts one box test; an origin in the half-open box is a hit; otherwise the decision is `AabbHit`, which ends with tmin < 1 and tmax > 0 |
| DbgRay.AabbTests | src/dbgray.cc:221-246 | a walk makes at least one box test |
| DbgRay.LeafBestIsFirstNearest | src/dbgray.cc:248-255 | the leaf scan returns the first of the nearest accepted hits, and nothing when there are none |
| DbgRay.NearestIsFirstNearest | src/dbgray.cc:221-256 | the walk returns the first nearest of all accepted hits in the leaves it reaches (the left child wins ties), and finds nothing exactly when there are none |
| DbgRay.NearestFaceBelow | src/dbgray.cc:221-256 | the reported face is one the scene holds |
| DbgRay.Tracer.FindIntersection | src/dbgray.cc:221-256 | returns `Nearest`, after exactly `AabbTests` box tests and `TriangleTests` triangle tests; a missed box visits no child |
| DbgRay.Tracer.LeafScan | src/dbgray.cc:248-255 | returns `LeafBest`: t starts at `RAY_MAG` and only a strictly nearer hit replaces the best; one triangle test per face |
| DbgRay.Trace | src/dbgray.cc:122-131 | a trace makes at least one box test and at most iter + 1 reflection rays, and no shadow ray when shadows are off |
| DbgRay.Shading | src/dbgray.cc:135-219 | at most iter + 1 reflection rays are cast below a shade, and no shadow ray when shadows are off |
| DbgRay.MissedRoot | src/dbgray.cc:122-131 | a ray that misses the root box is coloured 0.05 in each channel, after one box test |
| DbgRay.LightCounts | src/dbgray.cc:150-188 | the light loop casts one shadow ray per light when shadows are on and none when they are off, and evaluates the BRDF at most once per light |
| DbgRay.MatteSurface | src/dbgray.cc:190-214 | a surface with `kr == 0` casts no reflection ray, whatever the budget |
| DbgRay.NothingReflected | src/dbgray.cc:190-195 | with `kr == 0` the energy passed on is 0 |
| DbgRay.Tracer.TraceRay | src/dbgray.cc:122-131 | the colour and the counters of `Trace` |
| DbgRay.Tracer.Shade | src/dbgray.cc:135-219 | the colour and the counters of `Shading`: reflect only while iter ≥ 0 and the attenuated energy exceeds `MIN_ENERGY`, with iter - 1 |
| DbgRay.Tracer.LightLoop | src/dbgray.cc:147-188 | the diffuse and specular sums and the counters of `Lights` |
| DbgRay.Tracer.Illuminate | src/dbgray.cc:151-187 | one light's terms and counters, as `LightTerm` says |
| DbgRay.TransformIdentity | src/dbgray.cc:380-387 | the identity matrix leaves a point where it is |
| DbgRay.TransformIsAffine | src/dbgray.cc:380-387 | differences of points map by the linear part alone |
| DbgRay.Frame | src/dbgray.cc:75-103 | pixel i is what primary ray i is traced to |
| DbgRay.StatsSums | src/dbgray.cc:71-102 | the fold counts one primary ray per pixel and at least one box test per pixel, bounds the reflection rays, and has no shadow rays when no pixel cast one |
| DbgRay.StatsTotals | src/dbgray.cc:71-101 | after the pixels, each sum of the statistics (box and triangle tests, BRDF evaluations, shadow and reflection rays) is the sum of the pixels' tallies, with one primary ray per pixel and `rays_cast` still 0 |
| DbgRay.RenderedCounts | src/dbgray.cc:64-120 | a frame counts `prim_rays == xsz*ysz`, at least one box test per pixel, at most iter + 1 reflection rays per pixel, and no shadow rays with shadows off |
| DbgRay.StatsExtremes | src/dbgray.cc:87-98 | every pixel's box and triangle tests lie between the recorded minimum and maximum |
| DbgRay.MinimaBelowMaxima | src/dbgray.cc:71-98 | after a non-empty pass, min ≤ max for both counters |
| DbgRay.PictureLayout | src/dbgray.cc:83 | pixel i's colour sits at offsets 3i, 3i+1 and 3i+2 of the framebuffer |
| DbgRay.Tracer.Init | src/dbgray.cc:34-51 | a framebuffer of three floats per pixel for the given scene and size |
| DbgRay.Tracer.SetPrimaryRays | src/dbgray.cc:59-62 | stores the primary rays |
| DbgRay.Tracer.DbgRender | src/dbgray.cc:64-120 | the framebuffer is the picture of the frame; the statistics are the fold of the frame from `INT_MAX` minima and zero maxima, with `rays_cast` = prim + refl + shadow |
| DbgRay.Tracer.RenderRows | src/dbgray.cc:76-103 | the row loop draws all `xsz*ysz` pixels in order |
| DbgRay.Tracer.RenderRow | src/dbgray.cc:77-102 | one row draws the next `xsz` pixels |
| DbgRay.Tracer.RenderPixel | src/dbgray.cc:78-101 | one pixel: counters reset, the ray traced, the colour written and the statistics updated |
| DbgRay.Tracer.WritePixel | src/dbgray.cc:83 | writes the three channels after the earlier pixels |
| DbgRay.Tracer.UpdateStats | src/dbgray.cc:86-101 | folds the pixel's counters into the minima, maxima and sums |
| DbgRay.Charge | src/dbgray.cc:163-213 | adds a tally's BRDF evaluations, shadow rays and reflection rays to the statistics and leaves every other field alone |
| DbgRay.Tallied | src/dbgray.cc:87-101 | one pixel's bookkeeping: the minima and maxima take in its test counts, one primary ray is counted and the test sums grow by its counts |
| DbgRay.Finished | src/dbgray.cc:116 | `rays_cast` becomes primary plus reflection plus shadow rays, and nothing else changes |
| OpenCL.CLMemBuffer.constructor | src/ocl.cc:93-97 | a new buffer holds the device handle and its size and is not mapped |
| OpenCL.UnmapMemBuffer | src/ocl.cc:127-132 | an unmap is issued only for a non-null, mapped buffer, and a non-null buffer is left unmapped |
| OpenCL.WithArg | src/ocl.cc:216-254 | the table grows to idx + 1 only when it is shorter; slot idx holds the new value; every other slot is unchanged or a new empty slot |
| OpenCL.WithArgKeepsPrefix | src/ocl.cc:218-220 | setting a slot never shrinks the table or changes the slots before it |
| OpenCL.WithArgOverwrites | src/ocl.cc:216-238 | setting the same slot twice keeps only the second value |
| OpenCL.CLProgram.constructor | src/ocl.cc:159-166 | no program or kernel, 16 empty slots, not built |
| OpenCL.CLProgram.SetArgi | src/ocl.cc:216-226 | stores an int as `WithArg` says and returns true |
| OpenCL.CLProgram.SetArgf | src/ocl.cc:228-238 | stores a float as `WithArg` says and returns true |
| OpenCL.CLProgram.SetArgBuffer | src/ocl.cc:240-254 | fails and changes nothing when no buffer was created; otherwise stores it |
| OpenCL.CLProgram.GetArgBuffer | src/ocl.cc:256-262 | null for a negative index, an index past the table or a non-buffer slot; otherwise the stored buffer |
| OpenCL.LeadingArgs | src/ocl.cc:289-294 | the first empty slot, or the table's length |
| OpenCL.Bindable | src/ocl.cc:296-322 | int, float and buffer slots are bound; `ARGTYPE_FLOAT4` falls to `default` |
| OpenCL.BoundSlots | src/ocl.cc:289-325 | the bindable slots of the leading run of set slots; `BindListSound` and `BindListSorted` make it exactly those, in order |
| OpenCL.BindList | src/ocl.cc:289-325 | lists at most as many slots as the range holds, each inside the range |
| OpenCL.BindListSound | src/ocl.cc:289-325 | every listed slot is bindable, and every bindable slot of the range is listed |
| OpenCL.BindListSorted | src/ocl.cc:289-325 | the listed slots are in strictly increasing index order |
| OpenCL.SlotsAfterGapUnbound | src/ocl.cc:292-294 | no slot at or after an empty slot is bound |
| OpenCL.AllSetAllBound | src/ocl.cc:289-325 | when every slot is set, every slot is bound, in order |
| OpenCL.BindArgs | src/ocl.cc:289-325 | hands the bound slots to `clSetKernelArg` in index order and stops at the first failure; succeeds exactly when all bind |
| OpenCL.BindDone | src/ocl.cc:289-325 | a loop that binds every bound slot without an error ends in success |
| OpenCL.BindFailed | src/ocl.cc:296-320 | a loop whose binding of slot `i` fails ends in failure with `i` tried last, every earlier slot bound |
| OpenCL.CLProgram.Build | src/ocl.cc:264-336 | a build or kernel failure binds nothing; built only when every bound slot binds; any failure releases the handles |
| OpenCL.ClStrError | src/ocl.cc:505-514 | "<invalid error code>" for err > 0; "<unknown error>" for err ≤ -(table length); otherwise `table[-err]` |
| OpenCL.ClStrErrorCoversTable | src/ocl.cc:505-514 | every table entry is reachable |
| OpenCL.Pow1024 | src/ocl.cc:501 | the unit sizes are at least 1 |
| OpenCL.PrintMemsize | src/ocl.cc:486-503 | nothing for bytes ≥ 1024^6; otherwise the first i with bytes / 1024^i < 1024, that quotient with `suffix[i]`, and the raw byte count only when i > 0 |

## Left out

- `Scene::load(const char*)`, `find_file` and `dirname` are left out: opening files and handling paths are I/O. A material library reaches the loader as a function from its name to its lines. A name whose library cannot be opened maps to `None`, which is the `continue` of the source.
- The `fgets`/`feof` loops drop an unterminated last line. The model takes the input as already split into complete lines of tokens, so `strtok`'s global state is not modelled.
- The obj and mtl loops read with `fgets(buf, BUF_SZ, fp)` and `BUF_SZ` is 512, so a line longer than 511 characters reaches the switch as several lines. The model takes every line whole.
- `is_int`/`atoi` and `is_float`/`atof` are given partial functions. Their C semantics (prefix parsing, overflow) are not modelled.
- The object names (`cur_obj`, the static `seq` counter, `"defaultNN.obj"`) are never read by the core, so they are not modelled.
- The mtllib branch builds a `Material` for each library entry and then discards it. Only its `matnames` update is modelled (`ObjFiles.MaterialNames.Register`). `Scene::load` never fills `matlib`.
- `Scene::load` appends meshes directly and does not call `add_mesh`, so the faces it builds keep the `matid` of the `blank` face. The model follows the code here.
- `cons_mesh` indexes its lists without bounds checks. Where a face refers past a list's end, the C++ has undefined behaviour and the model stops with the outcome `OutOfRange`.
- `cons_mesh` writes only pos[0..2], normal[0..2] and tex[0..1] of each corner. The remaining fields of `Face` are uninitialised in the source; in the model they are those of a `blank` face parameter. The face normal is never computed.
- The mesh loader includes the 3-wide `Vertex` of `mesh.h`, but this model uses the 4-wide `scene.h` layout throughout.
- `find_intersection` reads `kd->left`, `kd->right` and `kd->face_idx`, while `scene.h` declares a `KDNode` with a `faces` list. The tree is therefore modelled as its own datatype (`DbgRay.KdTree`).
- The kd-tree builder and flattener (`build_kdtree`, `draw_kdtree`, `get_face_buffer`, `KDNode()`, `AABBox::calc_surface_area`) are not part of this model: their code is not in the files modelled. `get_num_lights` is not part of it either; the lights are a field of `DbgRay.World`.
- `Vectors.Normalized`: `sqrt` is a parameter, so `length()` is not a member. `normalize` takes the length as an argument that satisfies `IsSqrt`.
- `DbgRay.WellFormed`: `DbgRay.Trace`, `DbgRay.Shading`, `DbgRay.MissedRoot`, `DbgRay.MatteSurface`, `DbgRay.Tracer.Valid` and `DbgRay.Tracer.Init` require every face index of the tree to be below the face count and every face's `matid` to name an existing material. The source checks neither: `faces + kd->face_idx[i]` (`dbgray.cc` line 251) and `get_materials() + sp.face->matid` (line 137) are unchecked pointer arithmetic, and `init_dbg_renderer` accepts any scene. Out-of-range indices are undefined behaviour in the source and are excluded here, not modelled as an outcome. Because `Scene::load` never fills `matlib`, `get_materials()` is null for every scene the loader builds (`scene.cc` lines 52-57), so the tracer model covers no scene produced by `Scene::load` alone.
- `DbgRay.Tracer.Shade`: its requires `Valid()` carries `WellFormed`, so it promises nothing for a face whose `matid` is outside the material library, where the source reads through an unchecked (possibly null) pointer.
- `DbgRay.Tallied`, `DbgRay.Charge` and `DbgRay.Finished`: the statistics are unbounded integers. In the source the per-ray counters are `int` (`dbgray.cc` line 32) and the minima start at `INT_MAX`. The frame sums (`aabb_tests`, `triangle_tests`, `brdf_evals`, `shadow_rays`, `refl_rays`, `rays_cast`) are C integers there (`RenderStats` itself is declared outside the files modelled), so for a frame whose counts pass their range the source overflows, and `StatsSums`, `StatsTotals` and `RenderedCounts` no longer describe it.
- `pow`, `reflect` and `1.0 / x` are given functions in `DbgRay.Kernels`.
- `DbgRay.AabbHitIsConservative`: requires exact non-zero reciprocals of the ray's direction. IEEE infinities for a zero direction component are not modelled.
- Floating-point rounding is not modelled. Every `float` is a `real`, so results that depend on rounding (the `FEQ` tolerance, `calc_bary` on nearly degenerate triangles) hold only for exact arithmetic.
- `Vectors.Div`, `Matrices.Divided`, `Matrices.Inverted` and `Matrices.Matrix4x4.Invert`: these require a non-zero divisor or determinant. IEEE division by zero has no real counterpart.
- `Matrix4x4::operator[]` is declared in `matrix.h` but has no definition in the code, so it is not modelled.
- The timing fields of `dbg_render` (`render_time`, `tex_update_time`, `rays_per_sec`) and the averages `avg_aabb_tests` and `avg_triangle_tests` are left out. They come from the wall clock, and `rays_per_sec` divides by a time that can be 0.
- The OpenGL texture upload in `dbg_render` is left out; it is display only.
- `destroy_dbg_renderer` only frees memory, so it is not modelled.
- `init_dbg_renderer` can fail to allocate, and that failure is not modelled.
- The OpenCL calls are left out: `init_opencl`, `select_device`, `get_dev_info`, `create_mem_buffer`, `destroy_mem_buffer`, `map_mem_buffer`, `read_mem_buffer`, `write_mem_buffer`, `CLProgram::load`, `run` and the destructor. They are foreign calls. Their results enter the model as parameters of `SetArgBuffer` and `Build`.
- `CLProgram::get_num_args` is declared in `ocl.h` but not defined in the code, so it is not modelled.
- `OpenCL.CLProgram.SetArgi`, `OpenCL.CLProgram.SetArgf` and `OpenCL.CLProgram.SetArgBuffer` require 0 ≤ idx < `INT_MAX`. A negative index writes outside the vector in the source, which is undefined behaviour. The source also accepts `idx == INT_MAX`, where `idx + 1` overflows a signed `int` (undefined behaviour again); the model does not cover that index.
- The default `CLArg()` constructor is not in the code; its slots are taken to start as `ARGTYPE_NONE`.
- The error-string table `ocl_errstr.h` is not part of this model; `OpenCL.ClStrError` takes the table as a parameter.
- `OpenCL.PrintMemsize` returns the quotient, the suffix and the optional raw count instead of printing them.
- `Scenes.Scene.NumFaces`, `Scenes.Scene.NumMeshes` and `Scenes.Scene.NumMaterials` return unbounded naturals. The source sums the face counts into an `int` and casts the vector sizes to `int`, so counts beyond `INT_MAX` would overflow there.
- `DbgRay.ViewDir`: it divides each component by `RAY_MAG`. That stands for `operator/(const Vector3&, float)`, which `vector.h` declares at line 32 but the code defines nowhere, like `reflect`.
- `Vectors.LengthSq`: the lemma that a zero squared length means the zero vector is not stated.
