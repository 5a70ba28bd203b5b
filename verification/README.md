# pymks elastic finite-element bookkeeping, in Dafny

pymks computes the strain, displacement and stress fields of periodic
voxel microstructures of linear-elastic phases. The solve itself happens
inside SfePy. Around it, pymks does deterministic bookkeeping, and this
project models that part:

- **Validation.** `_check` applies ordered guards to the label array and
  the phase property lists.
- **Property table and lookup.** `_convert_properties` turns each phase's
  (Young's modulus, Poisson ratio) into (Lamé λ, dim/3·μ). The table is
  then indexed by the label array.
- **Material function.** `_material_func_` maps each quadrature point
  back to its voxel with `floor((x − min)/Δx)` and returns that voxel's
  (λ, μ).
- **Node selection.** `subdomain_func` is the node-selection predicate
  the regions use.
- **Boundary conditions.** The builders produce the periodic, shift/fix
  and linear-combination conditions, modelled as plain descriptors.
- **Mesh and shapes.** This covers the mesh `get_fields` asks for and
  the reshape/squeeze shape law at the end of `ElasticFESimulation.solve`.
- **Pipeline.** The `solve` pipeline covers preparation per sample, the
  library solve passed in as a function, reshaping and stacking.
- **Delta microstructures.** `make_delta_microstructures` builds one
  sample per ordered pair of distinct phases.

Arrays that are reshaped, looked up or stacked are `Grid.NdArray`: a
shape and a flat row-major cell sequence. This is numpy's C layout, so
`np.reshape` keeps the cell sequence and changes only the shape. Other
arrays use the form their code needs. The node coordinate arrays read by
`subdomain_func` and the material function are `seq<seq<real>>`, one
sequence per node. Each delta sample is a flat row-major `seq<int>` of
its cells. `Datasets.MakeDeltaMicrostructures` fills a Dafny
`int[n, n, cells]` array in place, as the source fills its numpy array. A Python exception is an error value:
a `Result` error where the exception kind matters (`_check`, `solve`),
and `Option.None` where a single failure such as a ValueError from
`np.reshape` or an IndexError from a float index is all there is
(`Grid.Reshape`, `Simulation.ShapeOutputs`, `Datasets.IntegerIndex`,
`Datasets.MakeDeltaMicrostructures`). Coordinates and elastic
constants are exact `real`s.

Files:

- `results.dfy`: `Option` and `Result`.
- `grid.dfy`: shapes, row-major offsets and reshape.
- `validation.dfy`: `_check`.
- `properties.dfy`: the property table and the label lookup.
- `material.dfy`: the material function.
- `subdomain.dfy`: `subdomain_func`.
- `mesh.dfy`: `get_fields` and the bounding box.
- `conditions.dfy`: the boundary-condition builders.
- `simulation.dfy`: `ElasticFESimulation.solve` and `solve`.
- `datasets.dfy`: `make_delta_microstructures`.

Three behaviours of the code are worth stating plainly:

- **Domain position.** `get_fields` centres the block mesh at the
  origin, so the bounding box is [−shape·Δx/2, shape·Δx/2]
  (`Mesh.MeshGeometry`). Every prescribed value uses only max − min.
- **Fixed condition.** The `fix` condition selects the nodes at
  x = min_x that lie on either y face (max or min), and in 3D also on
  either z face (`Conditions.DisplacementRegions`).
- **Mismatched list lengths.** `_convert_properties` zips and truncates
  to the shorter list. Only `_check`, earlier in `solve`, rejects
  unequal lengths (`Properties.ConvertProperties`,
  `Validation.CheckErrorOrder`).

## Model

| member | source | states |
|---|---|---|
| Validation.Max | pymks/fmks/data/elastic_fe.py:195 | `np.max` of a non-empty label list bounds every label and is attained by one |
| Validation.Min | pymks/fmks/data/elastic_fe.py:195 | `np.min` of a non-empty label list is below every label and is attained by one |
| Validation.Check | pymks/fmks/data/elastic_fe.py:181-198 | when `_check` passes, the microstructure flows on unchanged, as the `do` step passes it on |
| Validation.RangeGuard | pymks/fmks/data/elastic_fe.py:195-196 | `max >= n or min < 0` holds exactly when some label lies outside [0, n) |
| Validation.CheckAccepts | pymks/fmks/data/elastic_fe.py:191-198 | `_check` passes iff the lengths agree, the array is non-empty, its dtype is integer, every label is in [0, n_phases) and the rank is 3 or 4 |
| Validation.CheckErrorOrder | pymks/fmks/data/elastic_fe.py:191-198 | each error is raised exactly when every earlier guard passed and its own failed: length mismatch, non-integer dtype, empty array, label out of range, bad rank |
| Properties.Lame | pymks/fmks/data/elastic_fe.py:172-173 | λ·(1+ν)(1−2ν) = E·ν |
| Properties.Shear | pymks/fmks/data/elastic_fe.py:172-173 | μ·2(1+ν) = E |
| Properties.YoungPoissonRoundTrip | pymks/fmks/data/elastic_fe.py:172 | (λ, μ) determine the inputs back: ν = λ/(2(λ+μ)) and E = μ(3λ+2μ)/(λ+μ) |
| Properties.ConvertProperties | pymks/fmks/data/elastic_fe.py:168-178 | one row per pair of the zipped lists (the shorter length); row k satisfies λ·(1+ν)(1−2ν) = E·ν and μ'·2(1+ν)·3 = dim·E, so the row is (λ, dim/3·μ) |
| Properties.ConvertPropertiesExample | pymks/fmks/data/elastic_fe.py:126-131 | for E = (1, 2), ν = (1, 1), dim = 2 the table is [(−0.5, 1/6), (−1, 1/3)] |
| Properties.Lookup | pymks/fmks/data/elastic_fe.py:103-105 | `table[x]` has the label array's shape plus a trailing axis of 2 |
| Properties.LookupAt | pymks/fmks/data/elastic_fe.py:135-165 | at every voxel the lookup holds λ and μ of that voxel's phase row |
| Properties.SampleOf | pymks/fmks/data/elastic_fe.py:106 | iterating the first axis gives per-sample arrays of the remaining shape |
| Properties.SampleOfAt | pymks/fmks/data/elastic_fe.py:106 | sample s at index idx is the whole array at (s, idx) |
| Grid.Reshape | pymks/fmks/data/elastic_fe.py:674 | `np.reshape` succeeds iff the cell counts agree, and keeps the cells in row-major order |
| MaterialField.VoxelIndex | pymks/fmks/data/elastic_fe.py:245-250 | the index on each axis is the floor of (c − min)/Δx: k ≤ (c − min)/Δx < k + 1 |
| MaterialField.StepUnique | pymks/fmks/data/elastic_fe.py:246-249 | a coordinate in [min + kΔx, min + (k+1)Δx) floors to k |
| MaterialField.StepOfFloor | pymks/fmks/data/elastic_fe.py:246-249 | conversely, floor k puts the coordinate in [min + kΔx, min + (k+1)Δx) |
| MaterialField.VoxelIndexOfCell | pymks/fmks/data/elastic_fe.py:245-253 | a point is mapped to voxel v iff it lies in v's closed-open box |
| MaterialField.MaterialFunc | pymks/fmks/data/elastic_fe.py:242-264 | the result is present iff mode is "qp", with one λ and one μ per quadrature point |
| MaterialField.MaterialAtVoxel | pymks/fmks/data/elastic_fe.py:253-256 | a quadrature point in voxel v receives exactly the (λ, μ) stored at v |
| MaterialField.MaterialMatchesLabel | pymks/fmks/data/elastic_fe.py:242-264 | end to end: a quadrature point in voxel v of sample s receives the table row of the phase labelled at (s, v) |
| Subdomain.Eps | pymks/fmks/data/elastic_fe.py:305 | the tolerance is positive exactly when the last coordinate increases from the first row to the second, and zero exactly when it does not change |
| Subdomain.And | pymks/fmks/data/elastic_fe.py:325-328 | broadcasting `&` of masks stays a scalar only when both are scalars, else has one entry per row |
| Subdomain.AndBit | pymks/fmks/data/elastic_fe.py:325-328 | every row's bit of the conjunction is the conjunction of the bits |
| Subdomain.AnyClose | pymks/fmks/data/elastic_fe.py:307-317 | the OR over the points' `close` masks holds for a value iff the value is strictly inside (p − eps, p + eps) for some point p |
| Subdomain.FlagAxis | pymks/fmks/data/elastic_fe.py:313-317 | an axis without points gives scalar True; an axis with points gives one flag per row |
| Subdomain.FlagAxisBit | pymks/fmks/data/elastic_fe.py:313-317 | row i of `flag_it` is set iff the axis has no points or the row's coordinate is within eps of one of them |
| Subdomain.AnyCloseSpec | pymks/fmks/data/elastic_fe.py:314-317 | the OR over the points holds iff the value is strictly within eps of some point |
| Subdomain.TrueIndices | pymks/fmks/data/elastic_fe.py:329-330 | every index `np.where` returns is a row index |
| Subdomain.TrueIndicesSpec | pymks/fmks/data/elastic_fe.py:329-330 | `np.where` returns exactly the rows whose bit is set, in strictly ascending order |
| Subdomain.Where | pymks/fmks/data/elastic_fe.py:329-330 | on a row mask `np.where(...)[0]` holds exactly the rows whose bit is set; on a scalar it holds at most index 0, and holds it iff the scalar is True |
| Subdomain.Select | pymks/fmks/data/elastic_fe.py:319-331 | IndexError exactly when an axis with points lies beyond the coordinate width, or eps is needed and there are fewer than 2 rows or no column |
| Subdomain.SelectMask | pymks/fmks/data/elastic_fe.py:319-328 | the folded mask is a row mask exactly when some axis has points or max_x is given |
| Subdomain.SelectMaskBit | pymks/fmks/data/elastic_fe.py:319-328 | row i of the folded mask is set iff the row meets the selection rule for the given eps |
| Subdomain.SelectSpec | pymks/fmks/data/elastic_fe.py:305-331 | a row is selected iff on every axis with points it is within eps of one of them and, with max_x, x < max_x − eps, where eps = 1e-3·(coords[1][−1] − coords[0][−1]); the result is strictly ascending |
| Subdomain.SelectUnrestricted | pymks/fmks/data/elastic_fe.py:307-331 | with no points and no max_x, the fold is Python `True` and `np.where(True)[0]` is [0] |
| Mesh.GetFields | pymks/fmks/data/elastic_fe.py:211-215 | the block has edge shape[a]·Δx and shape[a] + 1 nodes on every axis, centred at the origin |
| Mesh.BoundingBox | pymks/fmks/data/elastic_fe.py:212-216 | the box of the block has edge dims[a] on every axis and is centred at the block's centre |
| Mesh.MeshGeometry | pymks/fmks/data/elastic_fe.py:213-215 | the box spans [−nΔx/2, nΔx/2] on an axis of n voxels, has length nΔx, node k sits at min + kΔx and node n on the maximum face |
| Conditions.GetRegionFunc | pymks/fmks/data/elastic_fe.py:337-358 | a facet region named "region_<axis>_<side>" that selects on its own axis by the one given value alone, with the given max_x |
| Conditions.GetBc | pymks/fmks/data/elastic_fe.py:361-392 | "periodic_<axis>" pairs the maximum face ("plus") with the minimum face ("minus") of its axis, maps the given components, passes max_x to both regions, and comes with the match function on that axis that it names |
| Conditions.PeriodicBcYZ | pymks/fmks/data/elastic_fe.py:396-413 | the condition pairs the faces of its axis, has no x exclusion, and ties exactly the components other than u.0 |
| Conditions.PeriodicBcX | pymks/fmks/data/elastic_fe.py:416-431 | the condition pairs the faces of its axis, excludes x ≥ max_x − eps on both regions, and ties exactly u.0 |
| Conditions.PeriodicBcs | pymks/fmks/data/elastic_fe.py:434-453 | 2d − 1 periodic conditions, each paired with the match function it names (which plane is matched is in PeriodicLayout) |
| Conditions.PeriodicLayout | pymks/fmks/data/elastic_fe.py:373-453 | conditions 0..d−1 pair the max/min faces of axes 0..d−1 on u.1 (and u.2 in 3D) with no exclusion; conditions d..2d−2 pair axes 1..d−1 on u.0 and exclude x ≥ max_x − eps; each condition names `match_<axis>_plane` for its own axis and comes with that plane-matching function |
| Conditions.ComponentCoverage | pymks/fmks/data/elastic_fe.py:396-453 | every (axis, component) pair is tied across opposite faces by exactly one condition: u.0 across x by the linear combination, any other pair by the periodic condition at `PeriodicIndex` |
| Conditions.RegionSelection | pymks/fmks/data/elastic_fe.py:337-358 | a region from `get_region_func` selects the rows within eps of its value on its axis, and, with max_x, below max_x − eps |
| Conditions.EdgeExclusion | pymks/fmks/data/elastic_fe.py:416-431 | no node selected by a u.0 periodic region lies on the x-plus face of the linear combination |
| Conditions.ShiftOrFixedSelection | pymks/fmks/data/elastic_fe.py:456-489 | a region built at x selects exactly the nodes within eps of x that lie within eps of a y face, and in 3D also of a z face |
| Conditions.DisplacementBcs | pymks/fmks/data/elastic_fe.py:492-526 | two vertex conditions: the first (shift) selects at x = max_x, the second (fix) at x = min_x |
| Conditions.DisplacementValues | pymks/fmks/data/elastic_fe.py:509-526 | two conditions, "shift_points_BC" prescribing u.0 = macro_strain·(max_x − min_x) and "fix_points_BC" prescribing 0 for each of the d components |
| Conditions.DisplacementRegions | pymks/fmks/data/elastic_fe.py:469-489 | shift selects nodes at x = max_x and fix those at x = min_x, in both cases only on a y face (and a z face in 3D) |
| Conditions.ShiftFixDisjoint | pymks/fmks/data/elastic_fe.py:509-526 | with eps at most half the x length, no node is both shifted and fixed |
| Conditions.LinearCombinationBcs | pymks/fmks/data/elastic_fe.py:529-561 | one condition, pairing the x faces, whose offset is macro_strain · (max_x − min_x) |
| Conditions.LinearCombinationSpec | pymks/fmks/data/elastic_fe.py:542-561 | one "shifted_periodic" condition pairs the x faces on u.0 with `match_x_plane`; its shift is macro_strain·(max_x − min_x) at every node, equal to the shift condition's value |
| Conditions.FaceNodes | pymks/fmks/data/elastic_fe.py:213-215 | on the generated mesh with 0 < eps ≤ Δx, a node is within eps of the max face iff it is the last node layer, and of the min face iff it is the first |
| Conditions.PrescribedDisplacement | pymks/fmks/data/elastic_fe.py:513 | on the generated mesh the shift and the linear-combination offset are macro_strain·n_x·Δx |
| Simulation.SqueezeShape | pymks/fmks/data/elastic_fe.py:677-683 | squeezing keeps the cell count and leaves no axis of extent 1 |
| Simulation.SqueezeAppend | pymks/fmks/data/elastic_fe.py:677-683 | squeezing a concatenated shape squeezes each part, so the kept extents stay in order |
| Simulation.SqueezeAxis | pymks/fmks/data/elastic_fe.py:677-683 | a single axis of extent 1 is dropped and any other single axis is kept |
| Simulation.SqueezeKeeps | pymks/fmks/data/elastic_fe.py:677-683 | a shape without extent-1 axes is unchanged |
| Simulation.Squeeze | pymks/fmks/data/elastic_fe.py:677-683 | a squeezed array is still well formed, with the same cells |
| Simulation.NodeShapeIsMesh | pymks/fmks/data/elastic_fe.py:674 | the node counts used to reshape u are those the mesh was built with, grid + 1 |
| Simulation.ElementAverageShape | pymks/fmks/data/elastic_fe.py:677-684 | squeezing an (n_el, 1, n_comp, 1) element average leaves n_comp as its last axis, also for n_el = 1 |
| Simulation.ShapeOutputs | pymks/fmks/data/elastic_fe.py:672-695 | the reshapes succeed iff each cell count matches its target shape; no value is moved |
| Simulation.ShapeLaw | pymks/fmks/data/elastic_fe.py:672-695 | for the library's layout, displacement gets shape (grid + 1) + (d,) and strain and stress get shape grid + (d(d+1)/2,) |
| Simulation.SetUp | pymks/fmks/data/elastic_fe.py:637-652 | one sample's problem has a 2D or 3D box of the grid's dimension and 2d − 1 periodic conditions with their match functions |
| Simulation.SetUpGeometry | pymks/fmks/data/elastic_fe.py:637-646 | the sample's box has edge n_a·Δx on axis a and is centred at the origin |
| Simulation.SetUpLoading | pymks/fmks/data/elastic_fe.py:648-652 | both the shift condition and the linear combination of the sample prescribe macro_strain·n_x·Δx |
| Simulation.PositiveExtents | pymks/fmks/data/elastic_fe.py:195 | an array that passed the non-emptiness of `np.max` has no zero extent |
| Simulation.Prepare | pymks/fmks/data/elastic_fe.py:100-106 | preparation fails iff `_check` fails, with its error; otherwise there is one problem per sample |
| Simulation.Problems | pymks/fmks/data/elastic_fe.py:101-106 | one problem per sample along the first axis of a checked microstructure |
| Simulation.PrepareProblem | pymks/fmks/data/elastic_fe.py:102-106 | problem s is the set-up of sample s of the looked-up property array, built with dim = rank − 1 |
| Simulation.PrepareMaterial | pymks/fmks/data/elastic_fe.py:103-106 | the property array of problem s holds at voxel v the table row of the phase labelled at (s, v) |
| Simulation.Concat | pymks/fmks/data/elastic_fe.py:107-108 | the joined cells number n·prod(shape) |
| Simulation.Stack | pymks/fmks/data/elastic_fe.py:107-108 | `np.array` of n equally shaped arrays has shape (n,) + shape |
| Simulation.ConcatAt | pymks/fmks/data/elastic_fe.py:107-108 | cell o of array k sits at k·prod(shape) + o of the joined cells |
| Simulation.StackAt | pymks/fmks/data/elastic_fe.py:107-108 | entry (k,) + idx of the stack is entry idx of array k |
| Simulation.Outputs | pymks/fmks/data/elastic_fe.py:106 | one reshaped output per problem |
| Simulation.StackOutputs | pymks/fmks/data/elastic_fe.py:107-109 | stacking succeeds iff there is a sample and each group has one shape, which then gains the leading sample axis |
| Simulation.SolveProblems | pymks/fmks/data/elastic_fe.py:106-109 | a successful result has the number of problems as its leading extent |
| Simulation.Solve | pymks/fmks/data/elastic_fe.py:85-110 | a validation error is returned iff `_check` fails, with its error; a success has n_samples as the leading extent of all three fields |
| Simulation.ProblemsShapes | pymks/fmks/data/elastic_fe.py:106-109 | problems on one grid of two or more axes, each solved in the library's layout, reshape and stack without error into strain and stress of shape (n,) + grid + (n_components,) and displacement of shape (n,) + (grid + 1) + (d,) |
| Simulation.SolveShapes | pymks/fmks/data/elastic_fe.py:85-110 | for valid input and the library's layout, `solve` returns strain and stress of shape (n_samples,) + grid + (n_components,) and displacement of shape (n_samples,) + (grid + 1) + (d,) |
| Datasets.CentreAsWritten | pymks/datasets/__init__.py:86 | true division gives a float centre c with 2c + 1 = size on each axis |
| Datasets.IntegerIndex | pymks/datasets/__init__.py:89 | an index is usable iff every entry is an integer |
| Datasets.CentreAsWrittenRejected | pymks/datasets/__init__.py:86-89 | as written, the centre write refuses every non-empty size; for (3, 3, 3) the centre is (1.0, 1.0, 1.0) |
| Datasets.Centre | pymks/datasets/__init__.py:86 | the integer centre lies in the grid and is the middle voxel (odd extent) or the lower middle voxel (even extent) |
| Datasets.CentreOffset | pymks/datasets/__init__.py:89 | the centre's row-major offset is a cell of the sample |
| Datasets.MakeDeltaMicrostructures | pymks/datasets/__init__.py:85-91 | with every extent ≥ 1 the array-filling method returns exactly the specified samples; a zero extent is an IndexError |
| Datasets.SamplesAppend | pymks/datasets/__init__.py:90-91 | selecting the samples of two pair lists one after the other concatenates the selections |
| Datasets.RowPairsLength | pymks/datasets/__init__.py:90 | row i of the off-diagonal mask keeps m − 1 of m columns when i < m, all m otherwise |
| Datasets.RowPairsMembers | pymks/datasets/__init__.py:90 | row i keeps exactly the columns j < m with j ≠ i |
| Datasets.RowPairsOrder | pymks/datasets/__init__.py:90-91 | row i's pairs come in increasing column order |
| Datasets.OffDiagonalLength | pymks/datasets/__init__.py:90-91 | the first m rows of the mask keep m·(n − 1) samples |
| Datasets.OffDiagonalMembers | pymks/datasets/__init__.py:90-91 | the kept pairs are exactly (i, j) with i < m, j < n, i ≠ j |
| Datasets.OffDiagonalOrder | pymks/datasets/__init__.py:90-91 | the kept pairs come in strictly increasing row-major order |
| Datasets.DeltaMicrostructuresCount | pymks/datasets/__init__.py:85-91 | n·(n − 1) samples (none for n ≤ 1), one for every ordered pair of distinct phases |
| Datasets.DeltaSampleAt | pymks/datasets/__init__.py:87-89 | sample k, for pair (i, j), holds j at the centre voxel and i at every other voxel |
| Datasets.DeltaValues | pymks/datasets/__init__.py:88-90 | every value is a phase in [0, n_phases), and each sample's centre differs from all its other voxels |
| Datasets.DeltaMicrostructuresExample | pymks/datasets/__init__.py:55-74 | for n_phases = 2 and size (3, 3, 3), the samples are zeros with 1 at the centre, then ones with 0 at the centre |

## Left out

- The SfePy solve (pymks/fmks/data/elastic_fe.py:639-670) is left out. This covers the equations, `Problem`, `time_update`, the Newton/ScipyDirect solver, and the strain and stress evaluation. It is a floating-point solve in a foreign library. `Simulation.Solve` takes it as the function `fe`, and `Simulation.RawShapes` states the output layout the shape law relies on.
- The solver-API `try/except AttributeError` fallback and the `goptions`/`output` quieting are library-version and logging state.
- `gen_block_mesh`, `Domain`, `Field`, `FieldVariable`, `Term.new`, `Integral` and `Material` are foreign constructors. Their arguments are modelled (`Mesh.BlockMesh`, `Conditions.Region`). Of the generated mesh, the model keeps its bounding box (`Mesh.BoundingBox`) and the positions of its evenly spaced node layers (`Mesh.NodeCoordinate`, `Mesh.MeshGeometry`). The node numbering and the element order behind `pb.evaluate` are not modelled.
- `get_term` (pymks/fmks/data/elastic_fe.py:269-288) only assembles library terms and is not modelled.
- `stiffness_from_lame` (the `D` entry of the material function) and the internals of `ElasticConstants` are foreign. The closed-form λ and μ relations replace them.
- MaterialField.MaterialFunc: requires every quadrature point to fall inside the grid. Out of range, numpy would raise IndexError or wrap a negative index, and that path is not modelled.
- MaterialField.VoxelIndex: requires Δx > 0. The source does not check `delta_x`. Δx = 0 divides by zero, and a negative Δx turns the mesh inside out. Neither case is modelled.
- Properties.Lame: requires ν ≠ −1 and ν ≠ 1/2. At those values the library divides by zero, and the model has no value for that case.
- Simulation.Prepare: when `_check` passes, it requires every ν to avoid −1 and 1/2, because the conversion then divides by zero. Inputs that `_check` rejects are accepted whatever their ν, and give the check's error.
- Simulation.Solve: the same requirement on ν as Simulation.Prepare, only when `_check` passes.
- Floating-point rounding, `np.allclose` tolerances and the 1e-3 relative eps are exact reals here. `subdomain_func` compares with strict `<` and `>` on exact values.
- Conditions.PeriodicBcs: SfePy resolves conditions and regions by name, and duplicate names are not modelled.
- Subdomain.SelectUnrestricted: models numpy before 2.1, where `np.where` on a 0-d `True` gives [0]. The callers never build such a selector.
- Simulation.Stack: numpy's handling of ragged inputs (an object array, or an error in recent numpy) is collapsed into the single error `Ragged`.
- `make_elasticFEstrain_delta`, `make_elasticFEstrain_random` and `make_cahnHilliard` (pymks/datasets/__init__.py:8-47, :93-162) call simulators that are not part of this model and use `np.random`.
- pymks/bases/real_ffts.py is a wrapper over numpy/pyfftw FFTs. It is floating point and foreign, so it is not modelled.
- The `toolz` `pipe`, `curry` and `fold` plumbing is composition, not behaviour.

## Findings

| source | as written | input that shows it | evidently intended | confidence | as-written member | corrected member |
|---|---|---|---|---|---|---|
| pymks/datasets/__init__.py:86 | `center = tuple((np.array(size) - 1) / 2)` uses true division, so the centre index is a tuple of floats. The centre write then indexes with floats, which numpy 1.12 and later refuse with IndexError. | `make_delta_microstructures(2, size=(3, 3, 3))`, the doctest itself: the centre is (1.0, 1.0, 1.0) | integer division `(np.array(size) - 1) // 2`, giving the integer centre voxel | high for numpy ≥ 1.12 under Python 3 true division (the package is Python 3: it uses f-strings, elastic_fe.py:477); not executed | Datasets.CentreAsWrittenRejected | Datasets.MakeDeltaMicrostructures |
