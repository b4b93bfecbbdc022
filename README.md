# Gray-Scott reaction-diffusion kernel, modelled in Dafny

This project models the numerical core of a collection of Gray-Scott reaction-diffusion programs. Two fields, U and V, live on a square grid with periodic boundaries. Each time step is an explicit Euler step:

- `U += (Du * lap(U) - U * V * V + F * (1 - U)) * dt`
- `V += (Dv * lap(V) + U * V * V - (F + k) * V) * dt`

`lap` is the five-point Laplacian. The repository computes this step in many ways, and the model relates each of them to one reference scheme.

- `Periodic`: the periodic five-point Laplacian and `np.roll`.
- `GrayScott`: the reference step, the simulation over nt steps and the seeded initial state.
- The Python NumPy scripts (`NumPy`, `PythonLaplacian`, `GhostCells`, `PythonDrivers`). The seven Laplacian variants in `laplacian.py` are loops, slices, rolls, shifted copies, `convolve2d` and `ndimage.laplace`. Each of them, and each script's time loop, is proved equal to the reference.
- The Swift `Matrix` value type and its Accelerate-based operators (`Matrices`, `BlockCopy`). `swift-examples/ex1-loops/ex1-loops/matrix.swift` is the same type as `swift-examples/laplacian/laplacian/matrix.swift`, with the buffer named `grid` and without the range subscript. Both files are modelled by `Matrices`.
- The class-based `Matrix` of `swift-example/matrix.swift` (`ExampleMatrix`).
- The pad, wrap, convolve and inner Laplacian (`ConvolveLaplacian`).
- The command-line and macOS drivers (`GrayScottSwift`) and the chart grid and colour map (`Charts`).
- The in-place loop program `ex1-loops` (`Ex1Loops`).
- The playground: `Lattice2d` (`Lattices`), its helpers (`Helpers`, `Doubles`), the lattice `generate()` (`Setup`), and the matplotlib bridge (`PythonKitSupport`).

Modelling choices:

- Float and Double values are `real`.
- Swift structs are datatypes whose mutations return a new value. Classes whose fields are updated in place (`ExampleMatrix.Matrix`, `Charts.Grid`, `GrayScottSwift.GrayScottModel`) are classes.
- Loops are methods with invariants, proved against specification functions.
- BLAS and vDSP kernels are modelled by the contract of the element loop they run.
- Random draws are parameters whose range is stated as a requirement.
- A pyplot call is recorded as a `PlotCall` value in a trace.
- A failable initialiser returns `Option`. A Swift trap (out-of-range index, a forced unwrap of nil, an empty closed range) is a precondition.
- The elementwise operators do not check shapes. They combine the buffers in the left operand's shape, as the vDSP calls do, so the model follows the code rather than a shape-mismatch error.
- `lap5_convolve` reads only `m.rows` and is written for square matrices, so it is modelled on square matrices only. `lap5_loops` and `lap5_loops2` take `n = len(f)` and allocate `np.zeros((n, n))`, so `PythonLaplacian.Lap5Loops`, `PythonLaplacian.Lap5Loops2` and `PythonLaplacian.SevenLaplacians`, which runs all seven variants on one grid, also require a square grid.

## Model

| member | source | states |
|---|---|---|
| BlockCopy.Mmov | swift-examples/laplacian/laplacian/matrix.swift:43-53 | `vDSP_mmov`: the result is as long as the destination, block cell (row, col) holds source cell (row, col) at the two strides, and every destination cell outside the block is unchanged |
| Matrices.Matrix.Set | swift-examples/laplacian/laplacian/matrix.swift:34-37 | subscript set: the addressed cell reads back the new value, every other buffer entry and the shape are unchanged, and a well-formed matrix stays well-formed |
| Matrices.SetThenGet | swift-examples/laplacian/laplacian/matrix.swift:34-37 | a read after one write returns the written value at the written cell and the old value everywhere else |
| Matrices.Filled | swift-examples/laplacian/laplacian/matrix.swift:16-20 | `init(rows:columns:fill:)`: rows * columns entries, every one equal to the fill |
| Matrices.From2d | swift-examples/laplacian/laplacian/matrix.swift:28-32 | `init(_ array2d:)`: rows is the outer count, columns the first row's count, the buffer the flattening; for rectangular input cell (i, j) is `array2d[i][j]` |
| Matrices.FlattenAt | swift-examples/laplacian/laplacian/matrix.swift:31 | `flatMap` over rows of c entries has length rows * c and puts entry (i, j) at offset i * c + j |
| Matrices.Block | swift-examples/laplacian/laplacian/matrix.swift:39-58 | range subscript: a (ru - rl) x (cu - cl) matrix whose cell (i, j) is cell (rl + i, cl + j) of the source |
| Matrices.BlockWhole | swift-examples/laplacian/laplacian/matrix.swift:39-58 | the block over the full row and column ranges is the matrix itself |
| Matrices.Mul | swift-examples/laplacian/laplacian/matrix.swift:60-64 | `lhs * rhs`: elementwise product in lhs's shape; cellwise product when the shapes agree |
| Matrices.Scale | swift-examples/laplacian/laplacian/matrix.swift:66-76 | `s * m` and `m * s`: every entry scaled, shape kept |
| Matrices.DivScalar | swift-examples/laplacian/laplacian/matrix.swift:78-82 | `m / s`: every entry divided by s, shape kept |
| Matrices.Add | swift-examples/laplacian/laplacian/matrix.swift:84-87 | `lhs + rhs`: elementwise sum in lhs's shape; cellwise sum when the shapes agree |
| Matrices.AddScalar | swift-examples/laplacian/laplacian/matrix.swift:89-97 | `s + m` and `m + s`: s added to every entry |
| Matrices.Sub | swift-examples/laplacian/laplacian/matrix.swift:99-102 | `lhs - rhs`: elementwise difference in lhs's shape |
| Matrices.ScalarMinus | swift-examples/laplacian/laplacian/matrix.swift:104-108 | `s - m`: every entry is s minus the entry of m |
| Matrices.MinusScalar | swift-examples/laplacian/laplacian/matrix.swift:110-114 | `m - s`: every entry is the entry of m minus s |
| Matrices.AddSubInverse | swift-examples/laplacian/laplacian/matrix.swift:84-114 | subtraction undoes addition, for a matrix and for a scalar |
| Matrices.ScaleDivInverse | swift-examples/laplacian/laplacian/matrix.swift:66-108 | division by a non-zero s undoes scaling by s, and `s - (s - m)` is m |
| Matrices.DivScalarOne | swift-examples/laplacian/laplacian/matrix.swift:78-82 | dividing by 1 leaves the matrix unchanged |
| ExampleMatrix.Matrix.ValidIndexInGrid | swift-example/matrix.swift:15-22 | an index that passes `indexIsValid` addresses a slot inside the buffer |
| ExampleMatrix.Matrix.DistinctSlots | swift-example/matrix.swift:19-27 | two different valid indices address different slots |
| ExampleMatrix.Matrix.constructor | swift-example/matrix.swift:9-13 | `init(rows:columns:)`: a fresh buffer of rows * columns zeros |
| ExampleMatrix.Matrix.Set | swift-example/matrix.swift:24-27 | subscript set on the array in place: the cell holds the new value and no other cell changes |
| ExampleMatrix.Example | swift-example/matrix.swift:41-50 | the script's 5 x 5 matrix holds 11, 22, 33 in row 1, columns 1-3, 44 and 55 in row 2, columns 1-2, and 0 elsewhere |
| ConvolveLaplacian.Pad | swift-examples/laplacian/laplacian/main.swift:13-25 | `pad`: a (rows + 2) x (columns + 2) matrix with cell (i + 1, j + 1) equal to input cell (i, j) and every border cell 0 |
| ConvolveLaplacian.Inner | swift-examples/laplacian/laplacian/main.swift:32-49 | `inner`: an (ncols - 2) square matrix whose cell (i, j) is buffer offset (i + 1) * ncols + (j + 1) |
| ConvolveLaplacian.KernelProperties | swift-examples/laplacian/laplacian/main.swift:70-72 | the kernel's nine weights sum to 0 and are symmetric under a half turn, so convolution and correlation agree |
| ConvolveLaplacian.Convolve3x3 | swift-examples/laplacian/laplacian/main.swift:74 | `vDSP.convolve` with a 3x3 kernel: every inner cell holds the kernel sum around it |
| ConvolveLaplacian.KernelAtFivePoint | swift-examples/laplacian/laplacian/main.swift:70-72 | with this kernel the 3x3 sum is the five-point stencil |
| ConvolveLaplacian.WrapRoundStep | swift-examples/laplacian/laplacian/main.swift:62-67 | one pass of the border loop body advances the loop state from t passes to t + 1 |
| ConvolveLaplacian.WrappedFinal | swift-examples/laplacian/laplacian/main.swift:62-67 | after all n + 2 passes the border columns and rows hold the opposite inner ones, (0, 0) holds input cell (n, 0), and inner cells are unchanged |
| ConvolveLaplacian.WrapBorders | swift-examples/laplacian/laplacian/main.swift:62-67 | the border loop, run in order on the padded matrix, leaves the borders wrapped as above |
| ConvolveLaplacian.PadThenWrap | swift-examples/laplacian/laplacian/main.swift:59-67 | pad and then wrap: every non-corner cell holds the input cell at the wrapped-around position |
| ConvolveLaplacian.KernelAtWrapped | swift-examples/laplacian/laplacian/main.swift:69-74 | the kernel sum at padded cell (i + 1, j + 1) is the periodic five-point Laplacian at (i, j) |
| ConvolveLaplacian.InnerOfConvolved | swift-examples/laplacian/laplacian/main.swift:74-77 | the inner block of the convolution of the wrapped matrix is the periodic Laplacian |
| ConvolveLaplacian.Lap5Convolve | swift-examples/laplacian/laplacian/main.swift:54-79 | `lap5_convolve` of a square matrix is the periodic five-point Laplacian |
| ConvolveLaplacian.LaplacianExample | swift-examples/laplacian/laplacian/main.swift:83-92 | the Laplacian of the 5 x 5 matrix 0..24 is 30 at the corner (0, 0) and 0 on the 3 x 3 interior |
| Periodic.PrevNextMod | python-examples/laplacian.py:54 | the ring neighbours of an index are i - 1 and i + 1 modulo n, as `mode='wrap'` takes them |
| Periodic.Lap5 | python-examples/laplacian.py:43-45 | the periodic five-point Laplacian: an array of the input's shape whose cell (i, j) is the stencil over the four ring neighbours |
| Periodic.Lap5Uniform | python-examples/laplacian.py:45 | a uniform field has a zero Laplacian everywhere |
| Periodic.Lap5Add | python-examples/laplacian.py:45 | the Laplacian of a sum is the sum of the Laplacians |
| Periodic.Axis | python-examples/laplacian.py:90-93 | a NumPy axis argument on a 2-D array names axis 0 or 1, counting negative values from the end; others raise `AxisError` |
| Periodic.Roll | python-examples/laplacian.py:90-93 | `np.roll(m, s, axis)` for axis 0, 1, -2 or -1: cell (i, j) is the cell s places back along that axis, modulo the extent |
| Periodic.RollNegativeAxis | python-examples/laplacian.py:90-93 | rolling along axis -1 is rolling along 1, and along -2 is rolling along 0 |
| Periodic.RollByOne | python-examples/laplacian.py:90-93 | rolling by 1 and by -1 reads the previous and the next ring neighbour |
| Periodic.RollLap5 | python-examples/laplacian.py:84-97 | rolling and taking the Laplacian commute |
| NumPy.Slice | python-examples/laplacian.py:73-77 | `a[r0:r1, c0:c1]`: an (r1 - r0) x (c1 - c0) array whose cell (i, j) is cell (r0 + i, c0 + j) |
| NumPy.SetBlock | python-examples/grayscott_slices.py:55-56 | block assignment: block cell (r0 + i, c0 + j) holds cell (i, j) of the assigned array, every other cell is kept |
| NumPy.SliceOfSetBlock | python-examples/grayscott_slices.py:55-56 | slicing the assigned block back out returns what was assigned |
| NumPy.SetRow | python-examples/ex1_arrays.py:76 | `a[dst, :] = a[src, :]`: row dst becomes row src, every other cell is kept |
| NumPy.SetColumn | python-examples/ex1_arrays.py:77 | `a[:, dst] = a[:, src]`: column dst becomes column src, every other cell is kept |
| NumPy.PadWrap | python-examples/laplacian.py:54 | `np.pad(f, 1, mode='wrap')`: two more rows and columns, cell (i, j) being cell ((i - 1) mod rows, (j - 1) mod columns) of f |
| NumPy.ConcatColumns | python-examples/laplacian.py:105-106 | `np.c_[a, b]`: b's columns after a's |
| NumPy.ConcatRows | python-examples/laplacian.py:107-108 | `np.r_[a, b]`: b's rows after a's |
| NumPy.ConcatColumnsSplit | python-examples/laplacian.py:105-106 | slicing the two parts out of `np.c_[a, b]` gives a and b back |
| NumPy.ConcatRowsSplit | python-examples/laplacian.py:107-108 | slicing the two parts out of `np.r_[a, b]` gives a and b back |
| NumPy.Convolve2dWrap | python-examples/laplacian.py:121 | `convolve2d(..., mode='same', boundary='wrap')`: an array of f's shape holding the nine wrapped kernel terms at each cell |
| NumPy.Convolve2dIsLap5 | python-examples/laplacian.py:115-122 | the wrapped convolution with the five-point kernel is the periodic Laplacian |
| NumPy.NdimageLaplace | python-examples/laplacian.py:173 | `scipy.ndimage.laplace(f, mode='wrap')`: the wrapped second differences along both axes, summed |
| NumPy.NdimageIsLap5 | python-examples/laplacian.py:173 | `ndimage.laplace` with wrapping is the periodic five-point Laplacian |
| NumPy.Arange | python-examples/laplacian.py:134 | `np.array(range(n * n)).reshape(n, n)`: cell (i, j) holds i * n + j |
| PythonLaplacian.StencilLoops | python-examples/laplacian.py:40-45 | the nested loops leave every inner cell holding the stencil over h2 and every border cell 0 |
| PythonLaplacian.LoopOne | python-examples/laplacian.py:45 | one loop body moves the loop state on by one cell |
| PythonLaplacian.LoopsInner | python-examples/laplacian.py:47 | `fnew[1:-1, 1:-1]` after the loops equals the five-slice stencil of the padded array |
| PythonLaplacian.Lap5Loops | python-examples/laplacian.py:21-47 | `lap5_loops` of a square array is the periodic Laplacian divided by h2 |
| PythonLaplacian.LoopsPaddingIsWrapPadding | python-examples/laplacian.py:32-38 | zero padding followed by the four ghost copies equals `np.pad(f, 1, mode='wrap')`, corners included |
| PythonLaplacian.Lap5Loops2 | python-examples/laplacian.py:50-63 | `lap5_loops2` is the periodic Laplacian divided by h2 |
| PythonLaplacian.Lap5Slices | python-examples/laplacian.py:66-81 | `lap5_slices` is the periodic Laplacian divided by h2 |
| PythonLaplacian.Lap5Roll | python-examples/laplacian.py:84-97 | `lap5_roll` is the periodic Laplacian divided by h2 |
| PythonLaplacian.RollsAt | python-examples/laplacian.py:90-93 | the four rolled copies at (i, j) are the four ring neighbours of (i, j) |
| PythonLaplacian.RollsAreLap5 | python-examples/laplacian.py:95 | the sum of the rolls minus four times f is the periodic Laplacian |
| PythonLaplacian.ShiftLeft | python-examples/laplacian.py:105 | the left copy built with `np.c_` is the roll by -1 along the columns |
| PythonLaplacian.ShiftRight | python-examples/laplacian.py:106 | the right copy is the roll by 1 along the columns |
| PythonLaplacian.ShiftDown | python-examples/laplacian.py:107 | the down copy built with `np.r_` is the roll by 1 along the rows |
| PythonLaplacian.ShiftUp | python-examples/laplacian.py:108 | the up copy is the roll by -1 along the rows |
| PythonLaplacian.Lap5Shift | python-examples/laplacian.py:100-112 | `lap5_shift` is the periodic Laplacian divided by h2 |
| PythonLaplacian.Lap5Convolve2d | python-examples/laplacian.py:115-122 | `lap5_convolve` is the periodic Laplacian |
| PythonLaplacian.SevenLaplacians | python-examples/laplacian.py:137-175 | on every square grid with h2 = 1 the seven variants of `main` agree: each result is the grid's periodic five-point Laplacian |
| PythonLaplacian.LaplacianMain | python-examples/laplacian.py:125-175 | the seven results of `main` on the 512 x 512 grid all equal its periodic Laplacian |
| PythonLaplacian.GridLap5Corner | python-examples/stencil_roll.py:41-44 | the Laplacian of the 6 x 6 grid is 42 at the corner (0, 0) |
| PythonLaplacian.GridLap5Inner | python-examples/stencil_roll.py:41-44 | the Laplacian of the 6 x 6 grid is 0 inside, where the grid is linear |
| PythonLaplacian.GridSpacing | python-examples/stencil_roll.py:42-43 | `h` and `h2` computed from a grid starting 0, 1 are both 1 |
| PythonLaplacian.StencilRollCopies | python-examples/stencil_roll.py:11-27 | the four rolled copies of the 6 x 6 grid hold at (i, j) the grid value of the corresponding ring neighbour |
| PythonLaplacian.StencilRollLaplacian | python-examples/stencil_roll.py:32-44 | `lap5` of the grid is its periodic Laplacian: 42 at (0, 0) and 0 inside |
| PythonLaplacian.GridSlicesAt | python-examples/stencil_arrays.py:15-31 | each 4 x 4 slice of the 6 x 6 grid differs from the centre by -1, +1, +6 or -6 |
| PythonLaplacian.StencilArrays | python-examples/stencil_arrays.py:11-31 | the five 4 x 4 slices: left and right hold the centre's column neighbours, down and up its row neighbours |
| GhostCells.Interior | python-examples/ex1_arrays.py:64-65 | `g[1:-1, 1:-1]`: the field without its ghost layer |
| GhostCells.FiveSlices | python-examples/ex1_arrays.py:12-23 | `laplace(f, h)`: cell (i, j) is the stencil at (i + 1, j + 1) over h2 |
| GhostCells.WrappedStencil | python-examples/ex1_arrays.py:12-23 | with wrapped ghost cells the five slices compute the periodic Laplacian of the field |
| GhostCells.PadWrapGhosts | python-examples/laplacian.py:54 | `np.pad(f, 1, mode='wrap')` has wrapped ghost cells and interior f |
| GhostCells.PadInterior | python-examples/laplacian.py:32 | the interior of the zero-padded array is the array that was padded |
| GhostCells.GhostFill | python-examples/ex1_arrays.py:76-79 | every ghost cell, corners included, holds the field cell across the field |
| GhostCells.GhostFillWraps | python-examples/ex1_arrays.py:76-79 | the filled ghost layer is wrapped and the field is untouched |
| GhostCells.WrapRowsFirstAt | python-examples/ex1_arrays.py:76-79 | after the four copies in this script's order, cell (i, j) holds the ghost-fill source cell |
| GhostCells.WrapColumnsFirstAt | python-examples/laplacian.py:35-38 | after the four copies in `lap5_loops`' order, cell (i, j) holds the ghost-fill source cell |
| GhostCells.WrapOrders | python-examples/ex1_arrays.py:76-79 | both orders of the four ghost copies give the same array: wrapped ghosts, field unchanged |
| GhostCells.FilledPadIsPadWrap | python-examples/laplacian.py:32-38 | zero padding followed by the ghost fill is wrap padding |
| GhostCells.SourceMod | python-examples/ex1_arrays.py:76-79 | the cell a ghost copies, unpadded, is the wrap-around index |
| PythonDrivers.WindowSeeded | python-examples/grayscott_slices.py:49-56 | a field of ones or zeros with `seed + noise` assigned to the window is base outside the window and seed + noise inside |
| PythonDrivers.NumPyInitial | python-examples/grayscott_slices.py:49-56 | the initial U and V: 1 and 0 outside the window rows and columns n // 2 - 9 ..< n // 2 + 10, 0.5 + noise and 0.25 + noise inside |
| PythonDrivers.SlicesStep | python-examples/grayscott_slices.py:61-63 | one loop pass with the slice Laplacian is one explicit Euler step of the scheme |
| PythonDrivers.RollStep | python-examples/numpy_roll.py:55-58 | one loop pass with the roll Laplacian is one Euler step of the scheme |
| PythonDrivers.ConvolveStep | python-examples/ex4_convolve2d.py:52-54 | one loop pass with the wrapped `convolve2d` Laplacian is one Euler step of the scheme |
| PythonDrivers.NdimageStep | python-examples/ex5_laplace.py:42-46 | one loop pass with `ndimage.laplace` is one Euler step of the scheme |
| PythonDrivers.SnapshotCount | python-examples/grayscott_movie.py:69 | the number of snapshots taken before index n, `(n + 99) / 100`, goes up by one exactly at the indices with `n % 100 == 0`, which are the multiples of 100 |
| PythonDrivers.SnapshotAppend | python-examples/grayscott_movie.py:69-71 | appending U after 100 * q + 1 steps keeps snapshot q equal to U after 100 * q + 1 steps |
| PythonDrivers.SlicesMain | python-examples/grayscott_slices.py:32-63 | the final U is the scheme's U after 10000 steps from the seeded 128 x 128 fields |
| PythonDrivers.SlicesMovieMain | python-examples/grayscott_movie.py:31-71 | the same final U, and 100 snapshots, snapshot q being U after 100 * q + 1 steps |
| PythonDrivers.RollMain | python-examples/numpy_roll.py:26-58 | the final U is the scheme's U after 10000 steps |
| PythonDrivers.RollMovieMain | python-examples/numpy_roll_movie.py:26-66 | the final U after 10000 steps and 100 snapshots after 1, 101, ..., 9901 steps |
| PythonDrivers.ConvolveMain | python-examples/ex4_convolve2d.py:24-54 | the final U is the scheme's U after 10000 steps |
| PythonDrivers.NdimageMain | python-examples/ex5_laplace.py:13-46 | the final U is the scheme's U after 10000 steps |
| PythonDrivers.ApplyPeriodic | python-examples/ex1_arrays.py:76-84 | the four ghost copies leave the field unchanged and wrap the ghost layer around it |
| PythonDrivers.WriteBack | python-examples/ex1_arrays.py:72-84 | writing the field back and refilling the ghosts gives an array with field f and wrapped ghosts |
| PythonDrivers.GhostStep | python-examples/ex1_arrays.py:61-84 | one pass on ghost-layer arrays advances the field by one Euler step and leaves the ghosts wrapped |
| PythonDrivers.GhostedSeeded | python-examples/ex1_arrays.py:47-55 | the seeded 130 x 130 arrays have wrapped ghost layers around a field seeded on 55 ..< 74 |
| PythonDrivers.Ex1ArraysMain | python-examples/ex1_arrays.py:26-84 | the final field is the scheme's U after 10000 steps from the field seeded on 55 ..< 74, and its ghost layer is wrapped |
| GrayScott.StepWith | swift-examples/grayscott/grayscott/main.swift:113-118 | one step given the two Laplacians: same shape as U, and every cell holds the explicit Euler update of u and v from that cell's pre-step values |
| GrayScott.Step | swift-examples/grayscott/grayscott/main.swift:110-119 | one step with the periodic five-point Laplacian keeps the grid's shape |
| GrayScott.Simulate | swift-examples/grayscott/grayscott/main.swift:110-119 | nt steps keep the grid's shape |
| GrayScott.StepFixedPoint | swift-examples/grayscott/grayscott/main.swift:117-118 | the unreacted state U = 1, V = 0 is a fixed point of one step, for any parameters |
| GrayScott.SimulateFixedPoint | swift-examples/grayscott/grayscott/main.swift:110-119 | started at U = 1, V = 0 the fields stay there for any number of steps |
| GrayScott.InitialRanges | swift-examples/grayscott/grayscott/main.swift:95-107 | after seeding, window cells hold U in [0.5, 0.6) and V in [0.25, 0.35), and every other cell holds U = 1, V = 0 |
| GrayScott.SeedWindow | swift-examples/grayscott/grayscott/main.swift:102-107 | the nested seeding loops write `0.5 + noise` and `0.25 + noise` to every window cell and leave every other cell alone |
| GrayScott.SwiftInitial | swift-examples/grayscott/grayscott/main.swift:95-107 | the n x n fields filled with 1 and 0 and seeded on rows and columns n / 2 - 9 ..< n / 2 + 10 are the initial state |
| GrayScott.OperatorStep | swift-examples/grayscott/grayscott/main.swift:113-118 | `U + (Du * lapU - UVV + F * (1 - U)) * dt` and `V + (Dv * lapV + UVV - (F + k) * V) * dt` with `UVV = U * V * V` are exactly the two halves of the step, for any Laplacians |
| GrayScottSwift.SwiftStep | swift-examples/grayscott-macos/grayscott-macos/GrayScott.swift:117-122 | one pass of the time loop, with `lap5_convolve`, is one step of the scheme |
| GrayScottSwift.Evolve | swift-examples/grayscott/grayscott/main.swift:110-119 | the time loop leaves the fields after nt steps |
| GrayScottSwift.CliMain | swift-examples/grayscott/grayscott/main.swift:83-119 | the command-line program's U is the scheme's U after 10000 steps from 128 x 128 fields seeded on 55 ..< 74 |
| GrayScottSwift.GrayScottModel.constructor | swift-examples/grayscott-macos/grayscott-macos/GrayScott.swift:81-86 | a fresh empty 256 x 256 chart grid, step 0, nt = 10000 |
| GrayScottSwift.GrayScottModel.RunSimulation | swift-examples/grayscott-macos/grayscott-macos/GrayScott.swift:88-134 | seeds 256 x 256 fields on 119 ..< 138, publishes step nt - 1 last, and appends the points of the scheme's U after nt steps with Du = 0.2, Dv = 0.1, dt = 1 and the given F and k to the chart grid |
| Charts.Band | swift-examples/grayscott-macos/grayscott-macos/Grid.swift:18-43 | the colour band of a value is one of the ten bands |
| Charts.ColorBands | swift-examples/grayscott-macos/grayscott-macos/Grid.swift:18-43 | a value in [0, 1] lies between its band's threshold and the next one and gets that band's colour |
| Charts.ColorOutside | swift-examples/grayscott-macos/grayscott-macos/Grid.swift:38-42 | a value outside [0, 1] gets the default, the top band's colour |
| Charts.BandMonotone | swift-examples/grayscott-macos/grayscott-macos/Grid.swift:18-43 | a larger value in [0, 1] never gets a lower band |
| Charts.RowPoints | swift-examples/GrayScottCharts/GrayScottCharts/Grid.swift:30-34 | one row of the chart: columns many points, point j being column j, row i and cell (i, j) |
| Charts.PointsRowMajor | swift-examples/GrayScottCharts/GrayScottCharts/Grid.swift:28-36 | the chart data has rows * columns points, the one at offset i * columns + j holding column j, row i and cell (i, j) |
| Charts.Grid.constructor | swift-examples/GrayScottCharts/GrayScottCharts/Grid.swift:23-26 | the given shape and no points |
| Charts.Grid.GenerateData | swift-examples/GrayScottCharts/GrayScottCharts/Grid.swift:28-36 | the points already there are kept and the matrix's points are appended row by row |
| Charts.GenerateTwice | swift-examples/grayscott-macos/grayscott-macos/Grid.swift:71-79 | `generateData` does not clear: two calls on a fresh grid leave the data twice, 2 * rows * columns points |
| Ex1Loops.Laplace | swift-examples/ex1-loops/ex1-loops/main.swift:8-16 | `laplace` overwrites f in place, row by row, over 1 ..< 21, returns the overwritten grid, and keeps every other cell |
| Ex1Loops.SweepReadsUpdatedCells | swift-examples/ex1-loops/ex1-loops/main.swift:10-14 | the in-place sweep reads cells it already overwrote: on a zero grid with one 1 at (1, 1), cell (1, 2) comes out -4 where the stencil of the input is 1 |
| Ex1Loops.PeriodicBorders | swift-examples/ex1-loops/ex1-loops/main.swift:60-70 | the ghost-copy loop computes the grid that the four copies per pass, applied in order, leave |
| Ex1Loops.PeriodicBorderWraps | swift-examples/ex1-loops/ex1-loops/main.swift:60-70 | after the ghost-copy loop the ghost layer wraps the field and the field is untouched |
| Ex1Loops.LoopStep | swift-examples/ex1-loops/ex1-loops/main.swift:52-70 | one pass of the time loop as written (the update reads the swept U) leaves both fields with wrapped ghosts |
| Ex1Loops.LoopsMain | swift-examples/ex1-loops/ex1-loops/main.swift:18-71 | `main` as written: 22 x 22 fields seeded on 2 ..< 21, then 10000 passes of the loop as written |
| Ex1Loops.AliasedStepLeavesRest | swift-examples/ex1-loops/ex1-loops/main.swift:53-56 | from the rest state U = 1, V = 0 one pass as written leaves U = 0.025 at (1, 1), where the scheme keeps 1 |
| Ex1Loops.InitialGhostsStale | swift-examples/ex1-loops/ex1-loops/main.swift:33-46 | after seeding the ghost rows do not wrap the field, so the first sweep reads stale ghosts |
| Ex1Loops.JacobiLaplace | swift-examples/ex1-loops/ex1-loops/main.swift:8-16 | corrected `laplace`: every field cell is the stencil of the input over h2, and on a wrapped grid the field is the periodic Laplacian of the field over h2 |
| Ex1Loops.InteriorStepWith | swift-examples/ex1-loops/ex1-loops/main.swift:56-57 | the cellwise update commutes with dropping the ghost layer |
| Ex1Loops.UpdateIsStep | swift-examples/ex1-loops/ex1-loops/main.swift:52-57 | the corrected update's field, on wrapped grids, is one step of the scheme on the fields |
| Ex1Loops.FixedStep | swift-examples/ex1-loops/ex1-loops/main.swift:49-71 | corrected pass: advances the field by one step of the scheme and leaves the ghosts wrapped |
| Ex1Loops.FixedMain | swift-examples/ex1-loops/ex1-loops/main.swift:18-71 | corrected `main`: the field after 10000 passes is the scheme's after 10000 steps from the seeded field, ghosts wrapped |
| Lattices.SpanSize | swift-examples/grayscott-jeff.playground/Sources/Lattice.swift:3 | a span of closed ranges has at least one cell, and its width and height are at most its size |
| Lattices.View | swift-examples/grayscott-jeff.playground/Sources/Lattice.swift:96-99 | the lattice read as a Height x Width matrix over the same buffer: cell (x, y) is matrix entry (y, x) at offset y * width + x |
| Lattices.FlattenCell | swift-examples/grayscott-jeff.playground/Sources/Lattice.swift:48 | `flatMap` of rectangular rows puts entry j of row i at offset i * width + j |
| Lattices.RowsLattice | swift-examples/grayscott-jeff.playground/Sources/Lattice.swift:36-50 | `init?(values:)` on rectangular rows, as written: width the row length, height the row count, cell (j, i) is rows[i][j], and `valueCount` is the row count |
| Lattices.FromRows | swift-examples/grayscott-jeff.playground/Sources/Lattice.swift:36-50 | `init?(values:)` fails exactly on no rows or ragged rows, and otherwise builds the lattice above |
| Lattices.RowsLatticeFixed | swift-examples/grayscott-jeff.playground/Sources/Lattice.swift:36-50 | the corrected initialiser: same span and buffer, `valueCount` the number of values |
| Lattices.Uniform | swift-examples/grayscott-jeff.playground/Sources/Lattice.swift:58-62 | `init(span:withBaseValue:)`: a full lattice of that span whose every value is the base |
| Lattices.FromSpan | swift-examples/grayscott-jeff.playground/Sources/Lattice.swift:64-72 | `init?(span:values:)` fails exactly when the span's size is not the number of values; otherwise a full lattice over those values |
| Lattices.ShapeSpan | swift-examples/grayscott-jeff.playground/Sources/Lattice.swift:75 | the `shape:` span as written: the row count becomes the width |
| Lattices.ShapeSpanFixed | swift-examples/grayscott-jeff.playground/Sources/Lattice.swift:75 | the corrected `shape:` span agrees with the span `init?(values:)` gives every rows x columns grid |
| Lattices.ShapeTransposed | swift-examples/grayscott-jeff.playground/Sources/Lattice.swift:47-48 | one row of two values is 2 wide and 1 high under `init?(values:)` but the shape (1, 2) is 1 wide and 2 high |
| Lattices.SquareShape | swift-examples/grayscott-jeff.playground/Sources/Lattice.swift:75 | for square shapes the written and corrected spans agree |
| Lattices.ShapeUniform | swift-examples/grayscott-jeff.playground/Sources/Lattice.swift:80-82 | `init(shape:withBaseValue:)`: a full lattice, rows wide and columns high, all values the base |
| Lattices.ShapeValues | swift-examples/grayscott-jeff.playground/Sources/Lattice.swift:84-86 | `init?(shape:values:)` fails exactly when rows * columns is not the number of values |
| Lattices.Generated | swift-examples/grayscott-jeff.playground/Sources/Lattice.swift:88-92 | `init(shape:usingGenerator:)`: a full lattice holding the draws in order |
| Lattices.SetValue | swift-examples/grayscott-jeff.playground/Sources/Lattice.swift:100-103 | subscript set with a Double: the cell reads back the value, nothing else changes |
| Lattices.SetValues | swift-examples/grayscott-jeff.playground/Sources/Lattice.swift:104-109 | subscript set with an array: the values land on consecutive offsets from the cell, every other value kept |
| Lattices.Paste | swift-examples/grayscott-jeff.playground/Sources/Lattice.swift:110-120 | subscript set with a lattice: each source row is copied to a row of this lattice from the cell on, the rest kept |
| Lattices.PasteGet | swift-examples/grayscott-jeff.playground/Sources/Lattice.swift:110-120 | after a paste, cell (x + col, y + row) holds the source's cell (col, row) |
| Lattices.PasteOutside | swift-examples/grayscott-jeff.playground/Sources/Lattice.swift:110-120 | after a paste, a cell outside the pasted rectangle keeps its value |
| Lattices.ScaleBy | swift-examples/grayscott-jeff.playground/Sources/Lattice.swift:152-159 | `left * right`: every value scaled, a full lattice in right's span |
| Lattices.Product | swift-examples/grayscott-jeff.playground/Sources/Lattice.swift:161-180 | `left * right` for lattices: the elementwise product in left's span, whichever branch runs |
| Lattices.Minus | swift-examples/grayscott-jeff.playground/Sources/Lattice.swift:182-189 | `left - right`: left minus right on the first `right.valueCount` values, left's values after that |
| Lattices.Plus | swift-examples/grayscott-jeff.playground/Sources/Lattice.swift:191-198 | `left + right`: the sum on the first `left.valueCount` values, right's values after that |
| Lattices.PlusMinusInverse | swift-examples/grayscott-jeff.playground/Sources/Lattice.swift:182-198 | on full lattices of one span `+` is commutative and `(a + b) - b` is a |
| Lattices.Negate | swift-examples/grayscott-jeff.playground/Sources/Lattice.swift:217-219 | prefix `-`: every value negated |
| Lattices.TimesScalar | swift-examples/grayscott-jeff.playground/Sources/Lattice.swift:225-227 | lattice times Double: every value scaled |
| Lattices.ScalarPlus | swift-examples/grayscott-jeff.playground/Sources/Lattice.swift:237-239 | Double plus lattice: the Double added to every value, because the uniform lattice is full |
| Lattices.PlusScalar | swift-examples/grayscott-jeff.playground/Sources/Lattice.swift:229-231 | lattice plus Double: the Double added to every value |
| Lattices.ScalarMinus | swift-examples/grayscott-jeff.playground/Sources/Lattice.swift:233-235 | Double minus lattice: every value is the Double minus the value |
| Lattices.RowsPlusPartial | swift-examples/grayscott-jeff.playground/Sources/Lattice.swift:49 | with `init?(values:)` as written the one-row lattice [1, 2] plus itself is [2, 2]; with the corrected initialiser it is [2, 4] |
| Lattices.AheadBehindMod | swift-examples/grayscott-jeff.playground/Sources/Lattice.swift:205-208 | the rotation offsets are (i + s) mod N and (i - s) mod N |
| Lattices.RollCell | swift-examples/grayscott-jeff.playground/Sources/Lattice.swift:205 | `v[s...] + v[..<s]` holds v[(i + s) mod N] at i |
| Lattices.RollBackCell | swift-examples/grayscott-jeff.playground/Sources/Lattice.swift:206-208 | `v[(N - s)...] + v[..<(N - s)]` holds v[(i - s) mod N] at i |
| Lattices.RollsAreFlatLap5 | swift-examples/grayscott-jeff.playground/Sources/Lattice.swift:210 | `-4 * v +! left +! right +! down +! up` is the flat five-point sum with neighbours i ± 1 and i ± c mod N |
| Lattices.RollSum | swift-examples/grayscott-jeff.playground/Sources/Lattice.swift:201-210 | the rolled sum is the flat five-point reference |
| Lattices.Laplacian5Point | swift-examples/grayscott-jeff.playground/Sources/Lattice.swift:200-213 | `laplacian5point`: a full lattice of M's span holding the flat reference |
| Lattices.FlatRight | swift-examples/grayscott-jeff.playground/Sources/Lattice.swift:207 | the flat right neighbour of the last cell of a row is the first cell of the next row |
| Lattices.FlatLeft | swift-examples/grayscott-jeff.playground/Sources/Lattice.swift:208 | the flat left neighbour of the first cell of a row is the last cell of the previous row |
| Lattices.FlatDown | swift-examples/grayscott-jeff.playground/Sources/Lattice.swift:205 | the flat neighbour i + c is the cell below, wrapping to row 0 |
| Lattices.FlatUp | swift-examples/grayscott-jeff.playground/Sources/Lattice.swift:206 | the flat neighbour i - c is the cell above, wrapping to the last row |
| Lattices.LaplacianCell | swift-examples/grayscott-jeff.playground/Sources/Lattice.swift:200-213 | `laplacian5point` at cell (x, y) is the periodic five-point Laplacian of the matrix view, except that in the last column the right neighbour is the first cell of the NEXT row and in the first column the left neighbour is the last cell of the PREVIOUS row |
| Lattices.Laplacian5PointFixed | swift-examples/grayscott-jeff.playground/Sources/Lattice.swift:200-213 | corrected `laplacian5point`: a full lattice of M's span whose matrix view is the periodic five-point Laplacian of M's view |
| Lattices.Laplacian5PointFixedCell | swift-examples/grayscott-jeff.playground/Sources/Lattice.swift:200-213 | the corrected Laplacian at (x, y) is the periodic stencil at row y, column x |
| Lattices.Laplacian5PointInside | swift-examples/grayscott-jeff.playground/Sources/Lattice.swift:205-210 | away from the first and last column the written and corrected Laplacians agree |
| Lattices.Laplacian5PointCrossesRows | swift-examples/grayscott-jeff.playground/Sources/Lattice.swift:207-208 | on a 3 x 3 lattice with a single 1 at (0, 0), the written Laplacian is 0 at (2, 0) and the periodic one is 1 |
| Setup.Truncate | swift-examples/ex1-loops-jeff.playground/Sources/Setup.swift:10 | `Int(x)` rounds toward zero |
| Setup.InitWidth | swift-examples/ex1-loops-jeff.playground/Sources/Setup.swift:10 | `Int(n * 15%)` is the largest w with 100 w <= 15 n |
| Setup.Low | swift-examples/ex1-loops-jeff.playground/Sources/Setup.swift:11 | `(n - initWidth) / 2` centres the window: the margins differ by at most one |
| Setup.SetupWindow | swift-examples/ex1-loops-jeff.playground/Sources/Setup.swift:3-11 | for n = 128 the window is 19 wide and starts at 54 |
| Setup.LatticeStep | swift-examples/ex1-loops-jeff.playground/Sources/Setup.swift:24-27 | the block keeps both fields full over U's span |
| Setup.LatticeEntries | swift-examples/ex1-loops-jeff.playground/Sources/Setup.swift:24-27 | entry k of the block's result is the Euler update (dt = 1) of entry k from the pre-step values and the `laplacian5point` values |
| Setup.LatticeStepIsStepWith | swift-examples/ex1-loops-jeff.playground/Sources/Setup.swift:23-28 | viewed as matrices, the block is the scheme's step with the Laplacians `laplacian5point` computes |
| Setup.Advance | swift-examples/ex1-loops-jeff.playground/Sources/Setup.swift:23-28 | the block keeps a compatible pair compatible and its span unchanged |
| Setup.IterateCompatible | swift-examples/ex1-loops-jeff.playground/Sources/Setup.swift:23-28 | after any number of calls the pair stays compatible with the same span |
| Setup.SeededPaste | swift-examples/ex1-loops-jeff.playground/Sources/Setup.swift:17-21 | a 128 x 128 lattice of base with `seed + draws` pasted at (54, 54) is the seeded field on 54 ..< 73 |
| Setup.SeededRanges | swift-examples/ex1-loops-jeff.playground/Sources/Setup.swift:13-21 | with draws in [0, 0.1] the seeded U cells lie in [0.5, 0.6] and V cells in [0.25, 0.35] |
| Setup.Generate | swift-examples/ex1-loops-jeff.playground/Sources/Setup.swift:16-31 | `generate()`: fields seeded on 54 ..< 73, then the final U is the block applied 10000 times |
| Helpers.TimesRange | swift-examples/grayscott-jeff.playground/Sources/Helpers.swift:3-5 | Int times a range: upper - lower elements, element j being (lower + j) * left |
| Helpers.TimesRangeSplit | swift-examples/grayscott-jeff.playground/Sources/Helpers.swift:3-5 | splitting the range splits the product |
| Helpers.TimesRangeStep | swift-examples/grayscott-jeff.playground/Sources/Helpers.swift:3-5 | consecutive elements differ by the factor |
| Helpers.IterateAdd | swift-examples/grayscott-jeff.playground/Sources/Helpers.swift:7-9 | m + n calls of the block are m calls followed by n more |
| Helpers.IterateInvariant | swift-examples/grayscott-jeff.playground/Sources/Helpers.swift:7-9 | a property the block preserves holds after any number of calls |
| Helpers.Repeating | swift-examples/grayscott-jeff.playground/Sources/Helpers.swift:7-9 | `repeating(count:_:)` calls the block exactly count times |
| Helpers.PrecisionFromRaw | swift-examples/grayscott-jeff.playground/Sources/Helpers.swift:22-33 | the raw-value initialiser returns the case with that raw value, and nil exactly for the other values |
| Helpers.PrecisionRoundTrip | swift-examples/grayscott-jeff.playground/Sources/Helpers.swift:22-33 | raw values round-trip and descriptions are distinct |
| Doubles.Scal | swift-examples/ex1-loops-jeff.playground/Sources/Doubles.swift:15 | `cblas_dscal`: the first n entries scaled, the rest kept |
| Doubles.Axpy | swift-examples/ex1-loops-jeff.playground/Sources/Doubles.swift:22 | `cblas_daxpy`: the first n entries of b become b + alpha * a, the rest kept |
| Doubles.Multiply | swift-examples/grayscott-jeff.playground/Sources/Lattice.swift:163 | `vDSP.multiply`: the elementwise product |
| Doubles.Times | swift-examples/ex1-loops-jeff.playground/Sources/Doubles.swift:13-18 | Double times array: every element scaled, length kept |
| Doubles.PlusBang | swift-examples/ex1-loops-jeff.playground/Sources/Doubles.swift:20-25 | `+!`: as long as right, entry i being left[i] + right[i] |
| Doubles.PlusBangSymmetric | swift-examples/ex1-loops-jeff.playground/Sources/Doubles.swift:20-25 | on arrays of one length `+!` is symmetric |
| Doubles.PercentOf | swift-examples/ex1-loops-jeff.playground/Sources/Doubles.swift:29-39 | `left * x%` is x hundredths of left, and 100% of a value is the value |
| PythonKitSupport.MarkerOf | swift-examples/grayscott-jeff.playground/Sources/PythonKitSupport.swift:22-49 | `MPLMarker(rawValue:)` on one character: a marker found has that character as its raw value |
| PythonKitSupport.LineOf | swift-examples/grayscott-jeff.playground/Sources/PythonKitSupport.swift:14-20 | `MPLLine(rawValue:)`: a line found has that raw value |
| PythonKitSupport.MarkerRoundTrip | swift-examples/grayscott-jeff.playground/Sources/PythonKitSupport.swift:22-49 | every marker but `none` is one character, and reading that character gives the marker back |
| PythonKitSupport.RawValuesRoundTrip | swift-examples/grayscott-jeff.playground/Sources/PythonKitSupport.swift:14-49 | markers and lines round-trip through their raw values, and no line's raw value starts with a marker character |
| PythonKitSupport.LineStyle | swift-examples/grayscott-jeff.playground/Sources/PythonKitSupport.swift:51-53 | `lineStyle(line:marker:)` as written: the line's raw value followed by the marker's |
| PythonKitSupport.ColorLetter | swift-examples/grayscott-jeff.playground/Sources/PythonKitSupport.swift:10-12 | the `first!` of every colour's raw value exists |
| PythonKitSupport.ColorLettersDistinct | swift-examples/grayscott-jeff.playground/Sources/PythonKitSupport.swift:10-12 | the colour letters are the codes b, g, r, c, m, y, k, w, one per colour |
| PythonKitSupport.LineStyleColored | swift-examples/grayscott-jeff.playground/Sources/PythonKitSupport.swift:55-57 | `lineStyle(line:marker:color:)` as written: the colour letter, then the uncoloured style |
| PythonKitSupport.LineStyleCollision | swift-examples/grayscott-jeff.playground/Sources/PythonKitSupport.swift:51-57 | solid with point markers and dash-dot without markers are different requests that both give "-.", with or without a colour |
| PythonKitSupport.ParseStyle | swift-examples/grayscott-jeff.playground/Sources/PythonKitSupport.swift:14-49 | a marker character followed by a line raw value is read back as that (line, marker) pair |
| PythonKitSupport.LineStyleFixed | swift-examples/grayscott-jeff.playground/Sources/PythonKitSupport.swift:51-53 | the corrected style, marker before line, is read back as the requested pair |
| PythonKitSupport.LineStyleColoredFixed | swift-examples/grayscott-jeff.playground/Sources/PythonKitSupport.swift:55-57 | the corrected coloured style is the colour letter followed by a string read back as the pair |
| PythonKitSupport.LineStyleFixedInjective | swift-examples/grayscott-jeff.playground/Sources/PythonKitSupport.swift:51-57 | distinct requests give distinct corrected strings, with or without a colour |
| PythonKitSupport.StyleAt | swift-examples/grayscott-jeff.playground/Sources/PythonKitSupport.swift:73-78 | series i gets `lineStyles[i]` exactly when there is one |
| PythonKitSupport.SeriesCallAt | swift-examples/grayscott-jeff.playground/Sources/PythonKitSupport.swift:72-79 | series call i plots pair i with its style |
| PythonKitSupport.PlotTraceShape | swift-examples/grayscott-jeff.playground/Sources/PythonKitSupport.swift:59-90 | `plot(xs:ys:)` calls pyplot exactly when its guards pass; then title and labels, one plot per pair with its style, the legend exactly when one is given, margins 0.1 and show |
| PythonKitSupport.PlotXs | swift-examples/grayscott-jeff.playground/Sources/PythonKitSupport.swift:59-90 | the guard loop and the series loop make exactly the calls of the trace above |
| PythonKitSupport.Copies | swift-examples/grayscott-jeff.playground/Sources/PythonKitSupport.swift:104-110 | x repeated once per y array |
| PythonKitSupport.PlotX | swift-examples/grayscott-jeff.playground/Sources/PythonKitSupport.swift:92-122 | `plot(x:ys:)` plots nothing for an empty x, and otherwise makes the calls of `plot(xs:ys:)` with x repeated once per y array |
| PythonKitSupport.PlotXY | swift-examples/grayscott-jeff.playground/Sources/PythonKitSupport.swift:124-126 | `plot(x:y:)` as written makes the calls of `plot(xs:ys:)` on the one pair with no legend |
| PythonKitSupport.ToDoubles | swift-examples/grayscott-jeff.playground/Sources/PythonKitSupport.swift:129 | `x.map { Double($0) }`: same length, each Int converted |
| PythonKitSupport.PlotIntXY | swift-examples/grayscott-jeff.playground/Sources/PythonKitSupport.swift:128-132 | `plot(x:[Int], y:)` as written converts x and forwards without the legend |
| PythonKitSupport.LegendDropped | swift-examples/grayscott-jeff.playground/Sources/PythonKitSupport.swift:124-132 | for a pair of equal lengths and a non-empty legend, the single-pair overloads make no legend call |
| PythonKitSupport.PlotXYFixed | swift-examples/grayscott-jeff.playground/Sources/PythonKitSupport.swift:124-126 | the corrected `plot(x:y:)` forwards the legend: a legend call is made exactly when the pair has equal lengths and the legend is non-empty |
| PythonKitSupport.PlotIntXYFixed | swift-examples/grayscott-jeff.playground/Sources/PythonKitSupport.swift:128-132 | the corrected `plot(x:[Int], y:)` forwards the legend, with the same legend guarantee |

## Left out

- Floating point. Float and Double rounding, NaN and infinities are not modelled; values are exact reals. "Equal" in the contracts means equal in exact arithmetic.
- Randomness. `Float.random(in: 0..<0.1)`, `np.random.uniform` and the playground's generator closure become sequences of draws, given as parameters with their range as a requirement.
- Output and timing:
  - `print` progress lines;
  - `time.perf_counter` and the playground's `time` helper (the clock);
  - `writeToTxtFile` and the `description` text of the Swift matrices;
  - `debugDescription` of `Lattice2d`;
  - matplotlib `imshow` and the animation writers of the movie scripts. The movie scripts are modelled up to the list of snapshots they collect.
- `Matplotlib.plot(_ lattice:)` (Lattice.swift 245-260): an image plot through pylab that computes nothing the kernel uses.
- The 0.2 s `asyncAfter` delay before `plt.show()`: the show is recorded as the last call of the trace. The pyplot calls themselves are modelled only as the trace of calls with their arguments.
- SwiftUI views, `@Published` change notification and `MainActor` hops of the macOS and chart apps. `RunSimulation` updates the fields directly, and the step it publishes is modelled as a field.
- `Point.id` (a fresh UUID per point) and the `Hashable` conformance: points are compared by x, y and value.
- The NaN-filled initialisers `init(span:)` and `init(shape:)`, and `Lattice2d.zero`, which builds on them: a NaN buffer has no real counterpart.
- The experimental range subscript of `Lattice2d` (Lattice.swift 127-147), which the file itself marks as not working.
- The last branch of the `Any`-typed subscript setter, which only prints for a value that is neither a Double, a `[Double]` nor a lattice. The three typed branches are `SetValue`, `SetValues` and `Paste`.
- `+=` on lattices is `left = left + right`, and `Setup` uses `Plus` for it. The compound operator has no member of its own.
- Setup.Advance: the step is only meaningful on compatible pairs (full buffers over one span). On any other pair the state transformer returns its argument, a totality device the source does not have. `generate()` only reaches compatible pairs (`IterateCompatible`).
- Setup.LatticeStep: the playground has no time step. Its update adds the rate itself, modelled as a step with dt = 1.
- Lattices.Laplacian5Point is modelled as written. `Setup` uses it, so the playground's step is related to the scheme's step through `LatticeStepIsStepWith`, with the Laplacians `laplacian5point` computes, not through `GrayScott.Step`.
- GrayScott.Step and GrayScott.Simulate: their own contracts state only the shape. What a step computes is stated by `StepWith` and by the drivers' methods, which are proved equal to `Step`.
- Integer widths: Swift `Int`, `Int32` BLAS counts and `vDSP_Length` are unbounded integers. No count in the programs comes near overflow.
- The Metal, colour-map and torus apps are not part of this model.

## Findings

| source | as written | input that shows it | evidently intended | confidence | as-written member | corrected member |
|---|---|---|---|---|---|---|
| swift-examples/ex1-loops/ex1-loops/main.swift:10-14 | `laplace` overwrites `f[i, j]` during the sweep, so later stencils read already-updated cells | a 22 x 22 zero grid with a 1 at (1, 1) and h2 = 1: cell (1, 2) comes out -4, where the stencil of the input is 1 | every stencil reads the input grid, and the result goes to a separate buffer | high, not executed | Ex1Loops.SweepReadsUpdatedCells | Ex1Loops.JacobiLaplace |
| swift-examples/ex1-loops/ex1-loops/main.swift:53-56 | `laplace(f: &U, ...)` leaves the Laplacian in U, so the update reads the Laplacian where it means U | the rest state U = 1, V = 0: after one pass U is 0.025 at (1, 1) instead of staying 1 | the update reads the pre-step U and V | high, not executed | Ex1Loops.AliasedStepLeavesRest | Ex1Loops.FixedStep |
| swift-examples/ex1-loops/ex1-loops/main.swift:33-49 | the ghost layer is filled only at the end of each pass, so the first pass reads the fill values 1 and 0 as ghosts | the seed window 2 ..< 21 reaches field row 20, yet ghost row 0 still holds U = 1 before the first pass | ghosts wrapped before the first pass | medium, not executed | Ex1Loops.InitialGhostsStale | Ex1Loops.FixedMain |
| swift-examples/grayscott-jeff.playground/Sources/Lattice.swift:49 | `init?(values:)` sets `valueCount` to the number of rows, and `+` and `-` combine only that many values | the lattice from [[1, 2]] plus itself is [2, 2] | [2, 4]: `valueCount` is the number of values | high, not executed | Lattices.RowsPlusPartial | Lattices.RowsLatticeFixed |
| swift-examples/grayscott-jeff.playground/Sources/Lattice.swift:75 | the `shape:` initialisers put the row count on the x (column) range | shape (1, 2) makes a lattice 1 wide and 2 high, while `init?(values:)` on one row of two values makes it 2 wide and 1 high | rows along y and columns along x, as in `init?(values:)` and the subscript | medium, not executed | Lattices.ShapeTransposed | Lattices.ShapeSpanFixed |
| swift-examples/grayscott-jeff.playground/Sources/Lattice.swift:205-210 | `laplacian5point` rolls the flat buffer by one, so a cell at the end of a row takes its right neighbour from the next row, and one at the start of a row its left neighbour from the previous row | a 3 x 3 lattice with a single 1 at (0, 0): the result at (2, 0) is 0, where the periodic Laplacian is 1 | horizontal neighbours wrap within the row | medium, not executed | Lattices.Laplacian5PointCrossesRows | Lattices.Laplacian5PointFixed |
| swift-examples/grayscott-jeff.playground/Sources/PythonKitSupport.swift:51-57 | `lineStyle` writes the line before the marker, so two requests can give one format string | (solid, point) and (dashDot, none) both give "-.", with or without a colour | the string determines the requested line and marker | medium, not executed | PythonKitSupport.LineStyleCollision | PythonKitSupport.LineStyleFixed |
| swift-examples/grayscott-jeff.playground/Sources/PythonKitSupport.swift:124-126 | `plot(x:y:...)` accepts a legend and does not forward it | x = [0], y = [0], legend ["U"]: no legend call | the legend is shown as in `plot(xs:ys:)` | high, not executed | PythonKitSupport.LegendDropped | PythonKitSupport.PlotXYFixed |
| swift-examples/grayscott-jeff.playground/Sources/PythonKitSupport.swift:128-132 | `plot(x: [Int], y:...)` accepts a legend and does not forward it | x = [0], y = [0], legend ["U"]: no legend call | the legend is shown as in `plot(xs:ys:)` | high, not executed | PythonKitSupport.LegendDropped | PythonKitSupport.PlotIntXYFixed |
