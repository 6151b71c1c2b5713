/**
 * The generated value enumerations the formatters look operand values up in
 * (SMAddressingModel, SMMemoryModel, SMStorageClass, SMFunctionControl,
 * SMMemoryAccess, SMCapability): each constant's SPIR-V name and value, and
 * ofInteger, the lookup from a Java int back to a constant.
 */
module Enumerations {
  import opened Base
  import opened Failures

  /** SMAddressingModel, in declaration order. */
  datatype AddressingModel = Logical | Physical32 | Physical64 | PhysicalStorageBuffer64 | PhysicalStorageBuffer64EXT
  {
    function Value(): int
    {
      match this
      case Logical => 0
      case Physical32 => 1
      case Physical64 => 2
      case PhysicalStorageBuffer64 => 5348
      case PhysicalStorageBuffer64EXT => 5348
    }

    function SpirName(): string
    {
      match this
      case Logical => "Logical"
      case Physical32 => "Physical32"
      case Physical64 => "Physical64"
      case PhysicalStorageBuffer64 => "PhysicalStorageBuffer64"
      case PhysicalStorageBuffer64EXT => "PhysicalStorageBuffer64EXT"
    }
  }

  /** SMAddressingModel.ofInteger: the first constant declared with the value. */
  function AddressingModelOfInteger(x: int): (r: Result<AddressingModel, Failure>)
    ensures r.Ok? ==> r.value.Value() == x
    ensures r.Err? <==> forall e: AddressingModel :: e.Value() != x
    ensures r.Err? ==> r.error == UnknownEnumValue(x)
  {
    if x == 0 then Ok(AddressingModel.Logical)
    else if x == 1 then Ok(AddressingModel.Physical32)
    else if x == 2 then Ok(AddressingModel.Physical64)
    else if x == 5348 then Ok(AddressingModel.PhysicalStorageBuffer64)
    else Err(UnknownEnumValue(x))
  }

  /** SMMemoryModel, in declaration order. */
  datatype MemoryModel = Simple | GLSL450 | OpenCL | Vulkan | VulkanKHR
  {
    function Value(): int
    {
      match this
      case Simple => 0
      case GLSL450 => 1
      case OpenCL => 2
      case Vulkan => 3
      case VulkanKHR => 3
    }

    function SpirName(): string
    {
      match this
      case Simple => "Simple"
      case GLSL450 => "GLSL450"
      case OpenCL => "OpenCL"
      case Vulkan => "Vulkan"
      case VulkanKHR => "VulkanKHR"
    }
  }

  /** SMMemoryModel.ofInteger: the first constant declared with the value. */
  function MemoryModelOfInteger(x: int): (r: Result<MemoryModel, Failure>)
    ensures r.Ok? ==> r.value.Value() == x
    ensures r.Err? <==> forall e: MemoryModel :: e.Value() != x
    ensures r.Err? ==> r.error == UnknownEnumValue(x)
  {
    if x == 0 then Ok(MemoryModel.Simple)
    else if x == 1 then Ok(MemoryModel.GLSL450)
    else if x == 2 then Ok(MemoryModel.OpenCL)
    else if x == 3 then Ok(MemoryModel.Vulkan)
    else Err(UnknownEnumValue(x))
  }

  /** SMStorageClass, in declaration order. */
  datatype StorageClass = UniformConstant | Input | Uniform | Output | Workgroup | CrossWorkgroup | Private | Function | Generic | PushConstant | AtomicCounter | Image | StorageBuffer
  {
    function Value(): int
    {
      match this
      case UniformConstant => 0
      case Input => 1
      case Uniform => 2
      case Output => 3
      case Workgroup => 4
      case CrossWorkgroup => 5
      case Private => 6
      case Function => 7
      case Generic => 8
      case PushConstant => 9
      case AtomicCounter => 10
      case Image => 11
      case StorageBuffer => 12
    }

    function SpirName(): string
    {
      match this
      case UniformConstant => "UniformConstant"
      case Input => "Input"
      case Uniform => "Uniform"
      case Output => "Output"
      case Workgroup => "Workgroup"
      case CrossWorkgroup => "CrossWorkgroup"
      case Private => "Private"
      case Function => "Function"
      case Generic => "Generic"
      case PushConstant => "PushConstant"
      case AtomicCounter => "AtomicCounter"
      case Image => "Image"
      case StorageBuffer => "StorageBuffer"
    }
  }

  /** SMStorageClass.ofInteger: the first constant declared with the value. */
  function StorageClassOfInteger(x: int): (r: Result<StorageClass, Failure>)
    ensures r.Ok? ==> r.value.Value() == x
    ensures r.Err? <==> forall e: StorageClass :: e.Value() != x
    ensures r.Err? ==> r.error == UnknownEnumValue(x)
  {
    if x == 0 then Ok(StorageClass.UniformConstant)
    else if x == 1 then Ok(StorageClass.Input)
    else if x == 2 then Ok(StorageClass.Uniform)
    else if x == 3 then Ok(StorageClass.Output)
    else if x == 4 then Ok(StorageClass.Workgroup)
    else if x == 5 then Ok(StorageClass.CrossWorkgroup)
    else if x == 6 then Ok(StorageClass.Private)
    else if x == 7 then Ok(StorageClass.Function)
    else if x == 8 then Ok(StorageClass.Generic)
    else if x == 9 then Ok(StorageClass.PushConstant)
    else if x == 10 then Ok(StorageClass.AtomicCounter)
    else if x == 11 then Ok(StorageClass.Image)
    else if x == 12 then Ok(StorageClass.StorageBuffer)
    else Err(UnknownEnumValue(x))
  }

  /** SMFunctionControl, in declaration order. */
  datatype FunctionControl = None | Inline | DontInline | Pure | Const
  {
    function Value(): int
    {
      match this
      case None => 0
      case Inline => 1
      case DontInline => 2
      case Pure => 4
      case Const => 8
    }

    function SpirName(): string
    {
      match this
      case None => "None"
      case Inline => "Inline"
      case DontInline => "DontInline"
      case Pure => "Pure"
      case Const => "Const"
    }
  }

  /** SMFunctionControl.ofInteger: the first constant declared with the value. */
  function FunctionControlOfInteger(x: int): (r: Result<FunctionControl, Failure>)
    ensures r.Ok? ==> r.value.Value() == x
    ensures r.Err? <==> forall e: FunctionControl :: e.Value() != x
    ensures r.Err? ==> r.error == UnknownEnumValue(x)
  {
    if x == 0 then Ok(FunctionControl.None)
    else if x == 1 then Ok(FunctionControl.Inline)
    else if x == 2 then Ok(FunctionControl.DontInline)
    else if x == 4 then Ok(FunctionControl.Pure)
    else if x == 8 then Ok(FunctionControl.Const)
    else Err(UnknownEnumValue(x))
  }

  /** SMMemoryAccess, in declaration order. */
  datatype MemoryAccess = None | Volatile | Aligned | Nontemporal | MakePointerAvailable | MakePointerAvailableKHR | MakePointerVisible | MakePointerVisibleKHR | NonPrivatePointer | NonPrivatePointerKHR
  {
    function Value(): int
    {
      match this
      case None => 0
      case Volatile => 1
      case Aligned => 2
      case Nontemporal => 4
      case MakePointerAvailable => 8
      case MakePointerAvailableKHR => 8
      case MakePointerVisible => 16
      case MakePointerVisibleKHR => 16
      case NonPrivatePointer => 32
      case NonPrivatePointerKHR => 32
    }

    function SpirName(): string
    {
      match this
      case None => "None"
      case Volatile => "Volatile"
      case Aligned => "Aligned"
      case Nontemporal => "Nontemporal"
      case MakePointerAvailable => "MakePointerAvailable"
      case MakePointerAvailableKHR => "MakePointerAvailableKHR"
      case MakePointerVisible => "MakePointerVisible"
      case MakePointerVisibleKHR => "MakePointerVisibleKHR"
      case NonPrivatePointer => "NonPrivatePointer"
      case NonPrivatePointerKHR => "NonPrivatePointerKHR"
    }
  }

  /** SMMemoryAccess.ofInteger: the first constant declared with the value. */
  function MemoryAccessOfInteger(x: int): (r: Result<MemoryAccess, Failure>)
    ensures r.Ok? ==> r.value.Value() == x
    ensures r.Err? <==> forall e: MemoryAccess :: e.Value() != x
    ensures r.Err? ==> r.error == UnknownEnumValue(x)
  {
    if x == 0 then Ok(MemoryAccess.None)
    else if x == 1 then Ok(MemoryAccess.Volatile)
    else if x == 2 then Ok(MemoryAccess.Aligned)
    else if x == 4 then Ok(MemoryAccess.Nontemporal)
    else if x == 8 then Ok(MemoryAccess.MakePointerAvailable)
    else if x == 16 then Ok(MemoryAccess.MakePointerVisible)
    else if x == 32 then Ok(MemoryAccess.NonPrivatePointer)
    else Err(UnknownEnumValue(x))
  }

  /** SMCapability, in declaration order. */
  datatype Capability = Matrix | Shader | Geometry | Tessellation | Addresses | Linkage | Kernel | Vector16 | Float16Buffer | Float16 | Float64 | Int64
  {
    function Value(): int
    {
      match this
      case Matrix => 0
      case Shader => 1
      case Geometry => 2
      case Tessellation => 3
      case Addresses => 4
      case Linkage => 5
      case Kernel => 6
      case Vector16 => 7
      case Float16Buffer => 8
      case Float16 => 9
      case Float64 => 10
      case Int64 => 11
    }

    function SpirName(): string
    {
      match this
      case Matrix => "Matrix"
      case Shader => "Shader"
      case Geometry => "Geometry"
      case Tessellation => "Tessellation"
      case Addresses => "Addresses"
      case Linkage => "Linkage"
      case Kernel => "Kernel"
      case Vector16 => "Vector16"
      case Float16Buffer => "Float16Buffer"
      case Float16 => "Float16"
      case Float64 => "Float64"
      case Int64 => "Int64"
    }
  }

  /** SMCapability.ofInteger: the first constant declared with the value. */
  function CapabilityOfInteger(x: int): (r: Result<Capability, Failure>)
    ensures r.Ok? ==> r.value.Value() == x
    ensures r.Err? <==> forall e: Capability :: e.Value() != x
    ensures r.Err? ==> r.error == UnknownEnumValue(x)
  {
    if x == 0 then Ok(Capability.Matrix)
    else if x == 1 then Ok(Capability.Shader)
    else if x == 2 then Ok(Capability.Geometry)
    else if x == 3 then Ok(Capability.Tessellation)
    else if x == 4 then Ok(Capability.Addresses)
    else if x == 5 then Ok(Capability.Linkage)
    else if x == 6 then Ok(Capability.Kernel)
    else if x == 7 then Ok(Capability.Vector16)
    else if x == 8 then Ok(Capability.Float16Buffer)
    else if x == 9 then Ok(Capability.Float16)
    else if x == 10 then Ok(Capability.Float64)
    else if x == 11 then Ok(Capability.Int64)
    else Err(UnknownEnumValue(x))
  }

  /** ofInteger(e.value()) is e itself, except for an alias declared after the constant it renames. */
  lemma AddressingModelRoundTrip(e: AddressingModel)
    ensures AddressingModelOfInteger(e.Value()) == Ok(e) <==> !(e == AddressingModel.PhysicalStorageBuffer64EXT)
  {
  }

  /** ofInteger(e.value()) is e itself, except for an alias declared after the constant it renames. */
  lemma MemoryModelRoundTrip(e: MemoryModel)
    ensures MemoryModelOfInteger(e.Value()) == Ok(e) <==> !(e == MemoryModel.VulkanKHR)
  {
  }

  /** ofInteger(e.value()) is e itself. */
  lemma StorageClassRoundTrip(e: StorageClass)
    ensures StorageClassOfInteger(e.Value()) == Ok(e)
  {
  }

  /** ofInteger(e.value()) is e itself. */
  lemma FunctionControlRoundTrip(e: FunctionControl)
    ensures FunctionControlOfInteger(e.Value()) == Ok(e)
  {
  }

  /** ofInteger(e.value()) is e itself, except for an alias declared after the constant it renames. */
  lemma MemoryAccessRoundTrip(e: MemoryAccess)
    ensures MemoryAccessOfInteger(e.Value()) == Ok(e) <==> !(e == MemoryAccess.MakePointerAvailableKHR || e == MemoryAccess.MakePointerVisibleKHR || e == MemoryAccess.NonPrivatePointerKHR)
  {
  }

  /** ofInteger(e.value()) is e itself. */
  lemma CapabilityRoundTrip(e: Capability)
    ensures CapabilityOfInteger(e.Value()) == Ok(e)
  {
  }

  /** Integer.MAX_VALUE names no constant of any of the enumerations. */
  lemma MaxValueUnknown(kind: EnumKind)
    ensures EnumName(kind, 0x7fff_ffff) == Err(UnknownEnumValue(0x7fff_ffff))
  {
  }

  /** The value enumerations by name. */
  datatype EnumKind = AddressingModelKind | MemoryModelKind | StorageClassKind | FunctionControlKind | MemoryAccessKind | CapabilityKind

  /** X.ofInteger(v).spirName(): the name of the first constant of the enumeration with the value. */
  function EnumName(kind: EnumKind, x: int): (r: Result<string, Failure>)
    ensures r.Err? ==> r.error == UnknownEnumValue(x)
  {
    match kind
    case AddressingModelKind => MapName(AddressingModelOfInteger(x), (e: AddressingModel) => e.SpirName())
    case MemoryModelKind => MapName(MemoryModelOfInteger(x), (e: MemoryModel) => e.SpirName())
    case StorageClassKind => MapName(StorageClassOfInteger(x), (e: StorageClass) => e.SpirName())
    case FunctionControlKind => MapName(FunctionControlOfInteger(x), (e: FunctionControl) => e.SpirName())
    case MemoryAccessKind => MapName(MemoryAccessOfInteger(x), (e: MemoryAccess) => e.SpirName())
    case CapabilityKind => MapName(CapabilityOfInteger(x), (e: Capability) => e.SpirName())
  }

  function MapName<T>(r: Result<T, Failure>, name: T -> string): Result<string, Failure>
  {
    match r
    case Ok(e) => Ok(name(e))
    case Err(f) => Err(f)
  }
}
