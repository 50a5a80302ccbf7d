# SmoothQuant configuration and int8 linear layer — a Dafny model

This project models the SmoothQuant quantization support of the Aphrodite
inference engine (`aphrodite/modeling/layers/quantization/smoothquant.py`):

- **`SmoothQuantConfig.from_config`** reads a raw `quant_config.json` dictionary.
  It takes the weight width from the keys `w_bit` / `bits`, falling back to 8
  when neither is found, and builds a `quant_map` holding exactly the entries
  whose value is the string `"per-tensor"` or `"per-token"`.
- **The `SmoothQuantConfig` constructor** accepts only an 8-bit weight width
  (checked first) and a `quant_map` that is neither `None` nor empty; otherwise
  it raises `ValueError`.
- **`SQLinearMethod.apply_weights`** refuses a bias, views the input as a matrix
  of rows (`x.view(-1, x.shape[-1])`), lets the int8 kernel fill an int32 matrix
  of rows by the weight's first extent, and views that back with the input's
  leading dimensions (`y.view(*x_shape[:-1], -1)`).

Files:

- `wrappers.dfy` — `Option` and `Result` (a `Failure` is a raised exception).
- `smoothquant_config.dfy` — module `SmoothQuantConfig`: raw JSON values, the
  constructor `NewConfig`, the filter `FilterQuantMap`, `FromConfig`, and
  `CollectQuantMap`, the loop over the dictionary's items, proved equal to the
  map-level filter.
- `sq_linear.dfy` — module `SQLinear`: tensors as shape plus row-major data,
  torch's `view` with an inferred (`-1`) or explicit shape, and `apply_weights`.

Modelling choices:

- `get_from_keys` lives in a base class that is not part of this model. It is a
  parameter `getFromKeys` of type `(RawConfig, seq<string>) -> Option<int>`;
  `None` stands for the `ValueError` it raises when no key is found. Nothing is
  assumed about which key it prefers.
- A raw configuration is a `map<string, JsonValue>`. A Python dictionary's
  iteration order does not affect the filtered map, and `CollectQuantMap`
  proves that for any item order.
- `value in ["per-tensor", "per-token"]` compares with `==`. Only a JSON string
  can equal a string, so numbers, booleans, null, arrays and objects are
  never kept.
- torch's `view` with one `-1` follows torch's size inference. When the other
  extents multiply to zero, torch raises: the `-1` is ambiguous for an empty
  tensor, and a non-empty tensor does not fit the shape. Otherwise the element
  count must be a multiple of that product.
- The int8 GEMM kernel (`linear_a8_w8_o32_`) is a parameter `gemm` that gives
  the int32 entry (i, j) for the row matrix and the weight.

## Model

| member | source | states |
|---|---|---|
| `SmoothQuantConfig.NewConfig` | aphrodite/modeling/layers/quantization/smoothquant.py:19-34 | A width other than 8 fails with that width, whatever the map. With width 8, a missing or empty map fails with the empty-map error. Construction succeeds exactly when the width is 8 and the map is non-empty, and then stores both unchanged. |
| `SmoothQuantConfig.DefaultArgumentsRejected` | aphrodite/modeling/layers/quantization/smoothquant.py:19-34 | Constructing with the default arguments (8 bits, `quant_map=None`) fails with the empty-map error. |
| `SmoothQuantConfig.ValidConfigReconstructs` | aphrodite/modeling/layers/quantization/smoothquant.py:22-34 | Any 8-bit configuration with a non-empty map is accepted by the constructor and comes back unchanged. |
| `SmoothQuantConfig.FilterQuantMap` | aphrodite/modeling/layers/quantization/smoothquant.py:66-69 | A key is in quant_map exactly when its raw value is the string "per-tensor" or "per-token". Each kept key maps to that same string, so every value is one of the two schemes. |
| `SmoothQuantConfig.WeightBitsOf` | aphrodite/modeling/layers/quantization/smoothquant.py:60-64 | The weight width is the lookup's value when found, and 8 when the lookup fails. |
| `SmoothQuantConfig.FromConfig` | aphrodite/modeling/layers/quantization/smoothquant.py:59-70 | A width other than 8 fails with that width. Otherwise it succeeds exactly when some entry is a scheme string, and otherwise fails with the empty-map error. On success the map holds exactly the scheme entries with their values, and the width is 8. |
| `SmoothQuantConfig.MissingWidthFallsBackToEight` | aphrodite/modeling/layers/quantization/smoothquant.py:60-70 | When no width key is found, from_config never fails on the width. Its only possible failure is the empty map. |
| `SmoothQuantConfig.WrongWidthAlwaysRejected` | aphrodite/modeling/layers/quantization/smoothquant.py:25-28 | A width other than 8 found in the dictionary is refused with that width, whatever quant_map entries the dictionary holds. |
| `SmoothQuantConfig.FilterUpdate` | aphrodite/modeling/layers/quantization/smoothquant.py:67-69 | Overwriting one raw entry changes the filtered map at that key only: a scheme string is stored there, and any other value removes the key. |
| `SmoothQuantConfig.FilterToRawConfig` | aphrodite/modeling/layers/quantization/smoothquant.py:66-69 | Writing a quant_map back as a dictionary of strings and filtering it yields the same map: the filter keeps every scheme entry and invents none. |
| `SmoothQuantConfig.FilterIdempotent` | aphrodite/modeling/layers/quantization/smoothquant.py:66-69 | Filtering an already filtered map, written back as a dictionary, changes nothing. |
| `SmoothQuantConfig.ConfigRoundTrip` | aphrodite/modeling/layers/quantization/smoothquant.py:59-70 | Take a valid configuration whose map names only schemes and write it back as its dictionary. Reading that dictionary gives the same configuration when the width lookup yields 8 or nothing. |
| `SmoothQuantConfig.LlamaExampleAccepted` | aphrodite/modeling/layers/quantization/smoothquant.py:31-33 | The llama example dictionary in the constructor's error message (qkv, out, fc1, fc2) reads as an 8-bit configuration holding those four entries. |
| `SmoothQuantConfig.CollectQuantMap` | aphrodite/modeling/layers/quantization/smoothquant.py:66-69 | The loop over the dictionary's items, in whatever order they come, builds the same map as the map-level filter. |
| `SmoothQuantConfig.FilterItems` | aphrodite/modeling/layers/quantization/smoothquant.py:67-69 | Item by item: an item whose value is a scheme string is in the filtered map with that string, and any other item's key is absent from it. |
| `SmoothQuantConfig.FromConfigItems` | aphrodite/modeling/layers/quantization/smoothquant.py:59-70 | from_config run as its loop over the items gives the same result as the map-level definition. |
| `SQLinear.ViewInfer` | aphrodite/modeling/layers/quantization/smoothquant.py:166 | A view with one inferred extent keeps the elements. When the other extents' product is zero it fails: as ambiguous for an empty tensor, as a size mismatch otherwise. It succeeds exactly when that product is positive and divides the element count, and the result's shape is well formed. |
| `SQLinear.FlattenRows` | aphrodite/modeling/layers/quantization/smoothquant.py:165-166 | Viewing the input as rows succeeds exactly when its last extent is positive. The row count is the product of the leading extents, and the data is unchanged. |
| `SQLinear.UnflattenRows` | aphrodite/modeling/layers/quantization/smoothquant.py:171 | Viewing a rows-by-out matrix back with leading extents `lead` succeeds exactly when `lead` holds an element. The shape is `lead` followed by the column count, and the data is unchanged. |
| `SQLinear.FlattenUnflattenRoundTrip` | aphrodite/modeling/layers/quantization/smoothquant.py:165-171 | For a non-empty input, viewing as rows and then back with the leading extents restores the input exactly. |
| `SQLinear.GemmOutput` | aphrodite/modeling/layers/quantization/smoothquant.py:167-170 | The int32 output is a rows-by-out matrix, and each of its entries (i, j) is the kernel's entry (i, j). |
| `SQLinear.KernelOutput` | aphrodite/modeling/layers/quantization/smoothquant.py:163-170 | A bias is refused. Success requires the weight present, the input and the weight each with at least one dimension, and a positive last input extent. The kernel matrix then has one row per leading index and one column per weight row, filled with the kernel's entries. |
| `SQLinear.ApplyWeights` | aphrodite/modeling/layers/quantization/smoothquant.py:159-172 | A bias is refused. The call succeeds exactly when the weight is present, both tensors have a dimension and the input holds an element. The result's shape is the input's shape with its last extent replaced by the weight's first, and its data is the kernel's matrix. |
| `SQLinear.ApplyWeightsIntended` | aphrodite/modeling/layers/quantization/smoothquant.py:171-172 | With the output extent given explicitly, the call succeeds whenever the input's last extent is positive, including inputs with no rows. Its shape and data are those of `ApplyWeights`. |
| `SQLinear.IntendedAgreesOnNonEmptyInput` | aphrodite/modeling/layers/quantization/smoothquant.py:171 | On every input holding an element, the code as written and the intended definition return the same result. |
| `SQLinear.EmptyBatchRejected` | aphrodite/modeling/layers/quantization/smoothquant.py:171 | An input of shape [0, 4] with a [3, 4] weight fails in the code as written with an ambiguous view. The intended definition returns an empty [0, 3] tensor. |
| `SQLinear.NoRowsRejected` | aphrodite/modeling/layers/quantization/smoothquant.py:171 | For every input whose leading extents hold no element and whose last extent is positive, with any weight and kernel, the code as written fails with an ambiguous view and the intended definition succeeds. |
| `SQLinear.ApplyWeightsEntries` | aphrodite/modeling/layers/quantization/smoothquant.py:164-172 | Read as a matrix of rows, the result's entry (i, j) is the kernel's entry (i, j) for the input's rows and the weight. It is stated of the corrected definition `ApplyWeightsIntended`; the code as written returns the same result wherever it succeeds (`IntendedAgreesOnNonEmptyInput`). |

## Left out

- `SmoothQuantConfig.FromConfig`: a width lookup that yields a non-integer (a string `"8"`, a float `8.0`) is not modelled; the lookup returns an integer or nothing.
- The message printed on the width fallback (line 64) is I/O and is not modelled.
- `__repr__` and the constant getters (`get_name`, `get_supported_act_dtypes`, `get_min_capability`, `get_config_filenames`, `get_scaled_act_names`) return fixed values and have nothing to prove.
- `get_linear_method` and the `Int8GEMM` singleton (lines 72-94) concern object creation and thread-safe double-checked locking; concurrency is out of scope.
- `create_weights` (lines 105-157) allocates device tensors and float dequantization scales of 1.0; it has no logic beyond allocation.
- The int8 GEMM kernel's arithmetic, its dtype and device checks, and its agreement on the inner dimension are foreign code. The model keeps only its output shape and takes its entries as given.
- Tensor strides and contiguity, which torch's `view` also requires, are not modelled: tensors are dense and row-major.
- The fused RMS-normalisation/quantization and rotary-embedding kernels are not part of this model: their source is not among the modelled files.

## Findings

| source | as written | input that shows it | evidently intended | confidence | as-written member | corrected member |
|---|---|---|---|---|---|---|
| aphrodite/modeling/layers/quantization/smoothquant.py:171 | `y.view(*x_shape[:-1], -1)` infers the output extent. The inference is ambiguous, so torch raises, whenever a leading extent is 0. | an empty batch `x` of shape [0, 4] with a weight of shape [3, 4] | give the extent explicitly, `y.view(*x_shape[:-1], weight.shape[0])`, which returns an empty [0, 3] result | medium; not executed | `SQLinear.ApplyWeights`, `SQLinear.NoRowsRejected`, `SQLinear.EmptyBatchRejected` | `SQLinear.ApplyWeightsIntended` |
