/** Operator selection for memory-efficient attention
    (ldm/models/diffusion/memory_efficient_attention.py): each operator's `supports`
    predicate, the dispatcher record with its `kv` default, the priority-list search of
    `AttentionOpDispatch.op`, and the rank and shape handling of
    `memory_efficient_attention`. Tensors are reduced to their shapes, dtypes and
    `requires_grad` flags; the CUDA device capability and whether the flash-attention
    package imported are inputs. */
module AttentionDispatch {
  import opened Wrappers

  datatype DType = Float32 | Float16 | BFloat16 | OtherDType

  /** `type(attn_bias)`: compared by exact type, as the source's set membership does. */
  datatype BiasType = NoBias | TensorBias | LowerTriangularBias | OtherBias

  /** A device given as a string, or a `torch.device` whose `type` is read. */
  datatype Device = DeviceString(name: string) | TorchDevice(kind: string)

  function DeviceType(device: Device): string
  {
    match device
    case DeviceString(name) => name
    case TorchDevice(kind) => kind
  }

  /** `torch.cuda.get_device_capability(...)`. */
  datatype Capability = Capability(major: int, minor: int)

  /** What the selection reads from outside the dispatcher record. */
  datatype Environment = Environment(capability: Capability, hasFlashAttention: bool)

  /** The four operators. */
  datatype OpKind = SmallK | Cutlass | Flash | CutlassFwdFlashBw

  /** `SUPPORTED_MAX_K`; Cutlass has `math.inf`. */
  datatype MaxK = UpTo(limit: int) | Unbounded

  function SupportedDevices(op: OpKind): set<string>
  {
    if op == SmallK then {"cuda", "cpu"} else {"cuda"}
  }

  function SupportedDtypes(op: OpKind): set<DType>
  {
    match op
    case SmallK => {Float32}
    case Cutlass => {Float32, Float16, BFloat16}
    case Flash => {Float16, BFloat16}
    case CutlassFwdFlashBw => {Float16, BFloat16} * {Float32, Float16, BFloat16}
  }

  function SupportedMaxK(op: OpKind): MaxK
  {
    match op
    case SmallK => UpTo(32)
    case Cutlass => Unbounded
    case Flash => UpTo(128)
    case CutlassFwdFlashBw => Unbounded
  }

  function SupportedBiasTypes(op: OpKind): set<BiasType>
  {
    if op == SmallK then {NoBias, TensorBias} else {NoBias, LowerTriangularBias}
  }

  function SupportsDropout(op: OpKind): bool { op == SmallK }

  function SupportsCustomScale(op: OpKind): bool { op != SmallK }

  function SupportsDifferentValueEmbed(op: OpKind): bool { op == Cutlass || op == CutlassFwdFlashBw }

  /** The dataclass `AttentionOpDispatch` after `__post_init__`. */
  datatype Dispatch = Dispatch(
    dtype: DType, device: Device, k: int, hasDropout: bool, attnBiasType: BiasType,
    kvLen: int, qLen: int, kv: int, batchSize: int, numHeads: int,
    hasCustomScale: bool, requiresGrad: bool)

  /** Construction: `__post_init__` replaces the `kv = -1` default by `k`. */
  function NewDispatch(
    dtype: DType, device: Device, k: int, hasDropout: bool, attnBiasType: BiasType,
    kvLen: int, qLen: int, kv: int, batchSize: int, numHeads: int,
    hasCustomScale: bool, requiresGrad: bool): (d: Dispatch)
    ensures kv == -1 ==> d.kv == k
    ensures kv != -1 ==> d.kv == kv
    ensures d.kv != -1 || k == -1
    ensures d == Dispatch(dtype, device, k, hasDropout, attnBiasType, kvLen, qLen, d.kv, batchSize, numHeads, hasCustomScale, requiresGrad)
  {
    var d := Dispatch(dtype, device, k, hasDropout, attnBiasType, kvLen, qLen, kv, batchSize, numHeads, hasCustomScale, requiresGrad);
    if d.kv == -1 then d.(kv := d.k) else d
  }

  /** A dispatcher built with every defaulted field left at its default. */
  function DefaultDispatch(dtype: DType, device: Device, k: int, hasDropout: bool, attnBiasType: BiasType, kvLen: int, qLen: int): (d: Dispatch)
    ensures d.kv == k && d.batchSize == -1 && d.numHeads == 1
    ensures !d.hasCustomScale && d.requiresGrad
  {
    NewDispatch(dtype, device, k, hasDropout, attnBiasType, kvLen, qLen, -1, -1, 1, false, true)
  }

  /** `dataclasses.replace(d, requires_grad=g)`: a fresh construction from d's fields. */
  function Replace(d: Dispatch, requiresGrad: bool): Dispatch
  {
    NewDispatch(d.dtype, d.device, d.k, d.hasDropout, d.attnBiasType, d.kvLen, d.qLen, d.kv, d.batchSize, d.numHeads, d.hasCustomScale, requiresGrad)
  }

  /** Running `__post_init__` again on a constructed record changes nothing, so `replace`
      changes only the field it names. */
  lemma ReplaceOnlyChangesGrad(d: Dispatch, requiresGrad: bool)
    requires d.kv != -1 || d.k == -1
    ensures Replace(d, requiresGrad) == d.(requiresGrad := requiresGrad)
  {
  }

  function StartsWithCuda(s: string): bool
  {
    |s| >= 4 && s[..4] == "cuda"
  }

  /** The bfloat16 rule: only on CUDA devices of major capability 8 or more. */
  predicate Bf16Unavailable(d: Dispatch, env: Environment)
  {
    d.dtype == BFloat16 && (!StartsWithCuda(DeviceType(d.device)) || env.capability.major < 8)
  }

  predicate WithinMaxK(op: OpKind, d: Dispatch)
  {
    var m := if d.k < d.kv then d.kv else d.k;
    match SupportedMaxK(op)
    case UpTo(limit) => m <= limit
    case Unbounded => true
  }

  /** `AttentionOpBase.supports` read with op's class attributes: the checks in the
      source's order, each rejecting at once. */
  function BaseSupports(op: OpKind, d: Dispatch, env: Environment): (r: bool)
    ensures r <==>
      DeviceType(d.device) in SupportedDevices(op) && d.dtype in SupportedDtypes(op) &&
      (SupportsDifferentValueEmbed(op) || d.k == d.kv) && WithinMaxK(op, d) &&
      d.attnBiasType in SupportedBiasTypes(op) && (!d.hasDropout || SupportsDropout(op)) &&
      (!d.hasCustomScale || SupportsCustomScale(op)) && !Bf16Unavailable(d, env)
  {
    var deviceType := DeviceType(d.device);
    if deviceType !in SupportedDevices(op) then false
    else if d.dtype !in SupportedDtypes(op) then false
    else if !SupportsDifferentValueEmbed(op) && d.k != d.kv then false
    else if !WithinMaxK(op, d) then false
    else if d.attnBiasType !in SupportedBiasTypes(op) then false
    else if d.hasDropout && !SupportsDropout(op) then false
    else if d.hasCustomScale && !SupportsCustomScale(op) then false
    else if Bf16Unavailable(d, env) then false
    else true
  }

  /** The small-K buffer rule: the first pack in `packs` dividing k with `k // pack <= 8`. */
  function PackFits(k: int, packs: seq<int>): bool
    requires forall i :: 0 <= i < |packs| ==> packs[i] > 0
  {
    if |packs| == 0 then false
    else if k % packs[0] == 0 && k / packs[0] <= 8 then true
    else PackFits(k, packs[1..])
  }

  /** The pack loop over [1, 2, 4] in closed form. */
  lemma SmallKPackRule(k: int)
    ensures PackFits(k, [1, 2, 4]) <==> k <= 8 || (k % 2 == 0 && k <= 16) || (k % 4 == 0 && k <= 32)
  {
    assert [1, 2, 4][1..] == [2, 4];
    assert [2, 4][1..] == [4];
    assert [4][1..] == [];
    assert PackFits(k, [4]) <==> k % 4 == 0 && k / 4 <= 8;
    assert PackFits(k, [2, 4]) <==> (k % 2 == 0 && k / 2 <= 8) || PackFits(k, [4]);
    assert PackFits(k, [1, 2, 4]) <==> k <= 8 || PackFits(k, [2, 4]);
    assert k % 2 == 0 ==> (k / 2 <= 8 <==> k <= 16);
    assert k % 4 == 0 ==> (k / 4 <= 8 <==> k <= 32);
  }

  function SmallKSupports(d: Dispatch, env: Environment): bool
  {
    BaseSupports(SmallK, d, env) && PackFits(d.k, [1, 2, 4])
  }

  /** `uses_tensorcores`: every major version from 8, and 16-bit types from 7. */
  function UsesTensorcores(capability: Capability, isHalf: bool): (r: bool)
    ensures r <==> capability.major >= 8 || (capability.major >= 7 && isHalf)
  {
    if capability.major >= 8 then true
    else if capability.major >= 7 then isHalf
    else false
  }

  function BitsPerScalar(dtype: DType): (r: int)
    requires dtype != OtherDType
    ensures r == 16 || r == 32
    ensures r == 16 <==> dtype != Float32
  {
    match dtype
    case Float32 => 32
    case Float16 => 16
    case BFloat16 => 16
  }

  /** `matmul_alignment_mn` of the Cutlass operator. */
  function MatmulAlignment(capability: Capability, dtype: DType): (r: int)
    requires dtype != OtherDType
  {
    var sm := capability.major * 10 + capability.minor;
    var bits := BitsPerScalar(dtype);
    var base := if sm >= 80 then 4 else 1;
    if UsesTensorcores(capability, bits == 16) then (if base < 128 / bits then 128 / bits else base)
    else base
  }

  /** The alignment by hardware generation, for minor versions 0 to 9. */
  lemma AlignmentTable(capability: Capability, dtype: DType)
    requires dtype != OtherDType && 0 <= capability.minor <= 9
    ensures capability.major >= 8 ==> MatmulAlignment(capability, dtype) == (if dtype == Float32 then 4 else 8)
    ensures capability.major == 7 ==> MatmulAlignment(capability, dtype) == (if dtype == Float32 then 1 else 8)
    ensures capability.major < 7 ==> MatmulAlignment(capability, dtype) == 1
  {
  }

  /** Sm86 and later, not Sm80: too little shared memory for large fp32 backward passes. */
  predicate SharedMemoryShort(d: Dispatch, env: Environment)
  {
    var sm := env.capability.major * 10 + env.capability.minor;
    d.requiresGrad && sm >= 80 && sm != 80 && d.dtype == Float32 && (if d.kv < d.k then d.k else d.kv) > 64
  }

  /** `MemoryEfficientAttentionCutlassOp.supports`. */
  function CutlassSupports(d: Dispatch, env: Environment): (r: bool)
    ensures r ==> BaseSupports(Cutlass, d, env) && d.dtype != OtherDType
    ensures r ==> d.k % MatmulAlignment(env.capability, d.dtype) == 0 && d.kv % MatmulAlignment(env.capability, d.dtype) == 0
    ensures r ==> !SharedMemoryShort(d, env)
    ensures BaseSupports(Cutlass, d, env) && !SharedMemoryShort(d, env) ==>
      (d.k % MatmulAlignment(env.capability, d.dtype) == 0 && d.kv % MatmulAlignment(env.capability, d.dtype) == 0 ==> r)
  {
    if !BaseSupports(Cutlass, d, env) then false
    else
      var alignment := MatmulAlignment(env.capability, d.dtype);
      if d.k % alignment != 0 || d.kv % alignment != 0 then false
      else !SharedMemoryShort(d, env)
  }

  /** `device_capability >= (7, 5)` on tuples. */
  predicate AtLeastTuring(capability: Capability)
  {
    capability.major > 7 || (capability.major == 7 && capability.minor >= 5)
  }

  /** `MemoryEfficientAttentionFlashAttentionOp.supports`. */
  function FlashSupports(d: Dispatch, env: Environment): (r: bool)
    ensures r ==> env.hasFlashAttention && BaseSupports(Flash, d, env)
    ensures r ==> d.k in {16, 32, 64, 128} && AtLeastTuring(env.capability)
    ensures r && d.requiresGrad && d.k == 128 ==> env.capability == Capability(8, 0)
    ensures (env.hasFlashAttention && BaseSupports(Flash, d, env) && d.k in {16, 32, 64, 128} &&
             AtLeastTuring(env.capability) && (d.requiresGrad && d.k == 128 ==> env.capability == Capability(8, 0))) ==> r
  {
    if !env.hasFlashAttention then false
    else if !BaseSupports(Flash, d, env) then false
    else
      var isSm80 := env.capability.major == 8 && env.capability.minor == 0;
      if d.k !in [16, 32, 64, 128] then false
      else if d.requiresGrad && d.k == 128 && !isSm80 then false
      else AtLeastTuring(env.capability)
  }

  /** Each operator's `supports`. The combined operator asks Flash only when a backward pass
      is needed and then asks Cutlass about the same record without gradients. */
  function Supports(op: OpKind, d: Dispatch, env: Environment): bool
  {
    match op
    case SmallK => SmallKSupports(d, env)
    case Cutlass => CutlassSupports(d, env)
    case Flash => FlashSupports(d, env)
    case CutlassFwdFlashBw =>
      if d.requiresGrad && !FlashSupports(d, env) then false
      else CutlassSupports(Replace(d, false), env)
  }

  /** `_is_cutlass_fwd_faster_than_flash`. */
  function CutlassFwdFaster(d: Dispatch): bool
  {
    var threadsFlash := d.batchSize * d.numHeads;
    var threadsCutlass := threadsFlash * (d.qLen / 64);
    if d.batchSize > 0 && threadsFlash < 60 && threadsCutlass / 2 >= threadsFlash then true
    else (if d.k < d.kv then d.kv else d.k) == 128
  }

  /** Cutlass is judged faster for head size 128, and for a small known batch once the query
      has at least 128 positions; with heads present and a query length that is not negative,
      these are the only cases. */
  lemma {:induction false} CutlassFasterCases(d: Dispatch)
    ensures (if d.k < d.kv then d.kv else d.k) == 128 ==> CutlassFwdFaster(d)
    ensures d.batchSize > 0 && d.numHeads > 0 && d.batchSize * d.numHeads < 60 && d.qLen >= 128 ==> CutlassFwdFaster(d)
    ensures d.numHeads > 0 && d.qLen >= 0 && CutlassFwdFaster(d) ==>
      (if d.k < d.kv then d.kv else d.k) == 128 ||
      (d.batchSize > 0 && d.batchSize * d.numHeads < 60 && d.qLen >= 128)
  {
    var t := d.batchSize * d.numHeads;
    var m := d.qLen / 64;
    if d.batchSize > 0 && d.numHeads > 0 && d.batchSize * d.numHeads < 60 && d.qLen >= 128 {
      assert m >= 2;
      MulAtLeastDouble(t, m);
      assert (t * m) / 2 >= t;
    }
    if d.batchSize > 0 && d.numHeads > 0 && d.qLen >= 0 && d.qLen < 128 {
      assert 0 <= m <= 1;
      MulBelowDouble(t, m);
      assert (t * m) / 2 < t;
    }
  }

  lemma MulBelowDouble(t: int, m: int)
    requires t > 0 && 0 <= m <= 1
    ensures t * m < 2 * t
  {
  }

  lemma MulAtLeastDouble(t: int, m: int)
    requires t > 0 && m >= 2
    ensures t * m >= 2 * t
  {
  }

  /** The operators `op` tries, in order. */
  function PriorityList(d: Dispatch): (r: seq<OpKind>)
    ensures |r| == 3 || |r| == 4
    ensures r[|r| - 3..] == [Flash, Cutlass, SmallK]
    ensures |r| == 4 <==> d.requiresGrad && CutlassFwdFaster(d)
    ensures |r| == 4 ==> r[0] == CutlassFwdFlashBw
  {
    var ops := [Flash, Cutlass, SmallK];
    if d.requiresGrad && CutlassFwdFaster(d) then [CutlassFwdFlashBw] + ops else ops
  }

  /** `NotImplementedError("No operator found ...")`. */
  datatype DispatchError = NoOperatorFound

  /** The first operator of ops that supports d. */
  function FirstSupporting(ops: seq<OpKind>, d: Dispatch, env: Environment): Result<OpKind, DispatchError>
  {
    if |ops| == 0 then Err(NoOperatorFound)
    else if Supports(ops[0], d, env) then Ok(ops[0])
    else FirstSupporting(ops[1..], d, env)
  }

  /** The operator `op` selects. */
  function Choose(d: Dispatch, env: Environment): Result<OpKind, DispatchError>
  {
    FirstSupporting(PriorityList(d), d, env)
  }

  /** The `op` property: build the priority list, then return the first operator that
      supports the record. */
  method Op(d: Dispatch, env: Environment) returns (r: Result<OpKind, DispatchError>)
    ensures r == Choose(d, env)
  {
    var priorityListOps := [Flash, Cutlass, SmallK];
    if d.requiresGrad && CutlassFwdFaster(d) {
      priorityListOps := [CutlassFwdFlashBw] + priorityListOps;
    }
    assert priorityListOps == PriorityList(d);
    for i := 0 to |priorityListOps|
      invariant FirstSupporting(priorityListOps[i..], d, env) == Choose(d, env)
    {
      assert priorityListOps[i..][1..] == priorityListOps[i + 1..];
      if Supports(priorityListOps[i], d, env) {
        return Ok(priorityListOps[i]);
      }
    }
    return Err(NoOperatorFound);
  }

  /** First match: the chosen operator is in the list and supports d, every earlier one does
      not; the error means no operator in the list supports d. */
  lemma {:induction false} FirstSupportingSpec(ops: seq<OpKind>, d: Dispatch, env: Environment)
    ensures FirstSupporting(ops, d, env).Ok? ==>
      exists i :: 0 <= i < |ops| && ops[i] == FirstSupporting(ops, d, env).value && Supports(ops[i], d, env) && forall j :: 0 <= j < i ==> !Supports(ops[j], d, env)
    ensures FirstSupporting(ops, d, env).Err? <==> forall i :: 0 <= i < |ops| ==> !Supports(ops[i], d, env)
    decreases |ops|
  {
    if |ops| > 0 && !Supports(ops[0], d, env) {
      FirstSupportingSpec(ops[1..], d, env);
      var r := FirstSupporting(ops, d, env);
      if r.Ok? {
        var i :| 0 <= i < |ops[1..]| && ops[1..][i] == r.value && Supports(ops[1..][i], d, env) &&
          forall j :: 0 <= j < i ==> !Supports(ops[1..][j], d, env);
        assert ops[i + 1] == r.value;
        assert forall j :: 0 <= j < i + 1 ==> !Supports(ops[j], d, env) by {
          forall j | 0 <= j < i + 1 ensures !Supports(ops[j], d, env) {
            if j > 0 { assert ops[j] == ops[1..][j - 1]; }
          }
        }
      } else {
        forall i | 0 <= i < |ops| ensures !Supports(ops[i], d, env) {
          if i > 0 { assert ops[i] == ops[1..][i - 1]; }
        }
      }
    }
  }

  /** The search over the priority list, written out. */
  lemma ChooseUnfolded(d: Dispatch, env: Environment)
    ensures Choose(d, env) ==
      if d.requiresGrad && CutlassFwdFaster(d) && Supports(CutlassFwdFlashBw, d, env) then Ok(CutlassFwdFlashBw)
      else if FlashSupports(d, env) then Ok(Flash)
      else if CutlassSupports(d, env) then Ok(Cutlass)
      else if SmallKSupports(d, env) then Ok(SmallK)
      else Err(NoOperatorFound)
  {
    var tail := [Flash, Cutlass, SmallK];
    assert tail[1..] == [Cutlass, SmallK];
    assert tail[1..][1..] == [SmallK];
    assert tail[1..][1..][1..] == [];
    assert FirstSupporting(tail[1..][1..], d, env) == if SmallKSupports(d, env) then Ok(SmallK) else Err(NoOperatorFound);
    assert FirstSupporting(tail[1..], d, env) == if CutlassSupports(d, env) then Ok(Cutlass) else FirstSupporting(tail[1..][1..], d, env);
    assert FirstSupporting(tail, d, env) == if FlashSupports(d, env) then Ok(Flash) else FirstSupporting(tail[1..], d, env);
    if d.requiresGrad && CutlassFwdFaster(d) {
      assert ([CutlassFwdFlashBw] + tail)[1..] == tail;
    }
  }

  /** Without CUDA only the small-K operator can be chosen. */
  lemma NonCudaUsesSmallK(d: Dispatch, env: Environment)
    requires DeviceType(d.device) != "cuda"
    ensures Choose(d, env) == (if SmallKSupports(d, env) then Ok(SmallK) else Err(NoOperatorFound))
  {
    ChooseUnfolded(d, env);
    assert !BaseSupports(Flash, d, env);
    assert !BaseSupports(Cutlass, d, env);
    assert Replace(d, false).device == d.device;
    assert !BaseSupports(Cutlass, Replace(d, false), env);
  }

  /** A device passed as a string with an index, such as "cuda:0", is supported by no
      operator: the string itself is compared with the device sets. */
  lemma IndexedDeviceStringRejected(d: Dispatch, env: Environment)
    requires d.device == DeviceString("cuda:0")
    ensures Choose(d, env) == Err(NoOperatorFound)
  {
    assert "cuda:0" != "cuda" && "cuda:0" != "cpu";
    NonCudaUsesSmallK(d, env);
    assert !BaseSupports(SmallK, d, env);
  }

  /** Single-precision input never runs the flash kernel in either pass. */
  lemma Float32NeverUsesFlash(d: Dispatch, env: Environment)
    requires d.dtype == Float32
    ensures Choose(d, env) != Ok(Flash)
    ensures d.requiresGrad ==> Choose(d, env) != Ok(CutlassFwdFlashBw)
  {
    ChooseUnfolded(d, env);
    assert !BaseSupports(Flash, d, env);
  }

  /** The combined operator is chosen only when gradients are needed and Cutlass is judged
      faster; small-K is chosen only when Flash and Cutlass both refuse. */
  lemma ChoiceOrder(d: Dispatch, env: Environment)
    ensures Choose(d, env) == Ok(CutlassFwdFlashBw) ==> d.requiresGrad && CutlassFwdFaster(d)
    ensures Choose(d, env) == Ok(SmallK) ==> !FlashSupports(d, env) && !CutlassSupports(d, env) && SmallKSupports(d, env)
    ensures Choose(d, env) == Ok(Cutlass) ==> !FlashSupports(d, env) && CutlassSupports(d, env)
  {
    ChooseUnfolded(d, env);
  }

  /** When gradients are needed, the combined operator only ever accepts the dtypes of its
      own class attribute; without them its `supports` reads Cutlass's attributes and also
      accepts float32. */
  lemma CombinedDtypes(d: Dispatch, env: Environment)
    ensures Supports(CutlassFwdFlashBw, d, env) && d.requiresGrad ==> d.dtype in SupportedDtypes(CutlassFwdFlashBw)
    ensures !d.requiresGrad && d.kv != -1 ==> Supports(CutlassFwdFlashBw, d, env) == CutlassSupports(d, env)
  {
    if !d.requiresGrad && d.kv != -1 {
      ReplaceOnlyChangesGrad(d, false);
      assert d.(requiresGrad := false) == d;
    }
  }

  /** `AttentionOpDispatch.from_arguments`, from the shapes of the (four-dimensional)
      query and value, the other tensor properties, `p` and `scale`. */
  function FromArguments(
    queryShape: seq<int>, valueShape: seq<int>, dtype: DType, device: Device, attnBiasType: BiasType,
    p: real, scale: Option<real>, queryGrad: bool, keyGrad: bool, valueGrad: bool): (d: Dispatch)
    requires |queryShape| >= 2 && |valueShape| >= 2
    requires |queryShape| == 4 || |queryShape| == 3
    ensures d.k == queryShape[|queryShape| - 1] && d.qLen == queryShape[1] && d.batchSize == queryShape[0]
    ensures d.kvLen == valueShape[1]
    ensures valueShape[|valueShape| - 1] != -1 ==> d.kv == valueShape[|valueShape| - 1]
    ensures valueShape[|valueShape| - 1] == -1 ==> d.kv == d.k
    ensures d.numHeads == if |queryShape| == 4 then queryShape[2] else 1
    ensures d.hasDropout <==> p > 0.0
    ensures d.hasCustomScale <==> scale.Some?
    ensures d.requiresGrad <==> queryGrad || keyGrad || valueGrad
  {
    var heads := if |queryShape| == 4 then queryShape[2] else 1;
    NewDispatch(dtype, device, queryShape[|queryShape| - 1], p > 0.0, attnBiasType,
      valueShape[1], queryShape[1], valueShape[|valueShape| - 1], queryShape[0], heads,
      scale.Some?, queryGrad || keyGrad || valueGrad)
  }

  /** `tensor.unsqueeze(2)` on a shape; defined from two dimensions up. */
  function Unsqueeze2(shape: seq<int>): (r: seq<int>)
    requires |shape| >= 2
    ensures |r| == |shape| + 1 && r[2] == 1
    ensures r[..2] == shape[..2] && r[3..] == shape[2..]
  {
    shape[..2] + [1] + shape[2..]
  }

  /** The errors `memory_efficient_attention` raises before running a kernel. */
  datatype AttentionError = ValueError | IndexError | NotImplementedError

  /** What `memory_efficient_attention` settles before the kernel call: the output shape,
      the operator, and whether the gradient-free fast path is taken. */
  datatype Plan = Plan(outputShape: seq<int>, op: OpKind, forwardNoGrad: bool)

  function Prepare(
    queryShape: seq<int>, keyShape: seq<int>, valueShape: seq<int>, dtype: DType, device: Device,
    attnBiasType: BiasType, p: real, scale: Option<real>, queryGrad: bool, keyGrad: bool, valueGrad: bool,
    op: Option<OpKind>, env: Environment): (r: Result<Plan, AttentionError>)
    ensures r == Err(ValueError) <==> |queryShape| != 3 && |queryShape| != 4
    ensures r.Ok? ==> |valueShape| >= 1 && |r.value.outputShape| == |queryShape|
    ensures r.Ok? ==> r.value.outputShape == queryShape[..|queryShape| - 1] + [valueShape[|valueShape| - 1]]
    ensures r.Ok? ==> (r.value.forwardNoGrad <==> !queryGrad && !keyGrad && !valueGrad)
    ensures r.Ok? && op.Some? ==> r.value.op == op.value
    ensures r.Ok? && op.None? ==> |valueShape| >= 2
    ensures op.Some? && |valueShape| >= 1 ==>
      (|queryShape| == 4 || (|queryShape| == 3 && |keyShape| >= 2 && |valueShape| >= 2) ==> r.Ok?)
  {
    if |queryShape| != 3 && |queryShape| != 4 then Err(ValueError)
    else if |valueShape| == 0 then Err(IndexError)
    else
      var outputShape := queryShape[..|queryShape| - 1] + [valueShape[|valueShape| - 1]];
      if |queryShape| == 3 && (|keyShape| < 2 || |valueShape| < 2) then Err(IndexError)
      else
        var q := if |queryShape| == 3 then Unsqueeze2(queryShape) else queryShape;
        var v := if |queryShape| == 3 then Unsqueeze2(valueShape) else valueShape;
        var chosen :=
          if op.Some? then Ok(op.value)
          else if |v| < 2 then Err(IndexError)
          else match Choose(FromArguments(q, v, dtype, device, attnBiasType, p, scale, queryGrad, keyGrad, valueGrad), env)
            case Ok(o) => Ok(o)
            case Err(_) => Err(NotImplementedError);
        if chosen.Err? then Err(chosen.error)
        else Ok(Plan(outputShape, chosen.value, !queryGrad && !keyGrad && !valueGrad))
  }

  /** The four-dimensional shape the kernels see: a three-dimensional one gets a head axis. */
  function Legacy4d(shape: seq<int>, queryRank: nat): (r: seq<int>)
    ensures |shape| >= 2 ==> |r| == |shape| + (if queryRank == 3 then 1 else 0)
  {
    if queryRank == 3 && |shape| >= 2 then Unsqueeze2(shape) else shape
  }

  /** A dispatched plan runs an operator that supports the four-dimensional inputs, for both
      the `[B, M, H, K]` form and the legacy `[B, M, K]` form (one head); without such an
      operator, dispatch fails with NotImplementedError. */
  lemma DispatchedPlanIsSupported(
    queryShape: seq<int>, keyShape: seq<int>, valueShape: seq<int>, dtype: DType, device: Device,
    attnBiasType: BiasType, p: real, scale: Option<real>, queryGrad: bool, keyGrad: bool, valueGrad: bool,
    env: Environment)
    requires (|queryShape| == 4 && |valueShape| >= 2) || (|queryShape| == 3 && |keyShape| >= 2 && |valueShape| >= 2)
    ensures var r := Prepare(queryShape, keyShape, valueShape, dtype, device, attnBiasType, p, scale, queryGrad, keyGrad, valueGrad, None, env);
      var d := FromArguments(Legacy4d(queryShape, |queryShape|), Legacy4d(valueShape, |queryShape|), dtype, device, attnBiasType, p, scale, queryGrad, keyGrad, valueGrad);
      (r.Ok? ==> Supports(r.value.op, d, env)) &&
      d.numHeads == (if |queryShape| == 4 then queryShape[2] else 1) &&
      (r.Err? <==> forall o :: o in PriorityList(d) ==> !Supports(o, d, env)) &&
      (r.Err? ==> r.error == NotImplementedError)
  {
    var d := FromArguments(Legacy4d(queryShape, |queryShape|), Legacy4d(valueShape, |queryShape|), dtype, device, attnBiasType, p, scale, queryGrad, keyGrad, valueGrad);
    FirstSupportingSpec(PriorityList(d), d, env);
  }
}
