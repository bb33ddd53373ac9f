/**
  The small descriptors of `src/util/types.h`: the pair of optional queue
  family indices and the vertex input layout of `Vertex`.
 */
module Types {
  import opened Common

  /** `QueueFamilyIndices`: the family chosen for graphics and for presentation. */
  datatype QueueFamilyIndices = QueueFamilyIndices(graphicsFamily: Option<u32>, presentFamily: Option<u32>) {
    predicate IsComplete() {
      graphicsFamily.Some? && presentFamily.Some?
    }
  }

  const NoFamilies: QueueFamilyIndices := QueueFamilyIndices(None, None)

  /**
    The pair `(graphicsFamily.value(), presentFamily.value())`, which the
    device, swapchain and queue code read; `value()` on an empty optional
    throws `std::bad_optional_access`.
   */
  function FamilyValues(q: QueueFamilyIndices): (r: Result<(u32, u32)>)
    ensures r.Ok? ==> Some(r.value.0) == q.graphicsFamily && Some(r.value.1) == q.presentFamily
    ensures r.Err? ==> r.error == BadOptionalAccess
  {
    if q.graphicsFamily.None? || q.presentFamily.None? then Err(BadOptionalAccess)
    else Ok((q.graphicsFamily.value, q.presentFamily.value))
  }

  /** `isComplete` holds exactly when both `value()` reads succeed. */
  lemma CompleteIffValuesReadable(q: QueueFamilyIndices)
    ensures q.IsComplete() <==> FamilyValues(q).Ok?
  {
  }

  // ---------------------------------------------------------------------------
  // Vertex layout

  /** `sizeof(float)` */
  const FLOAT_SIZE: nat := 4
  /** `sizeof(glm::vec3)`: three floats, no padding */
  const VEC3_SIZE: nat := 3 * FLOAT_SIZE

  /** The members of `Vertex`, in declaration order. */
  datatype VertexMember = Pos | Normal | Color
  const VertexMembers: seq<VertexMember> := [Pos, Normal, Color]

  /** Every member is a `glm::vec3`. */
  function MemberSize(m: VertexMember): nat {
    VEC3_SIZE
  }

  /** Total size of the first `n` members; all members are 4-byte aligned, so there is no padding. */
  function PrefixSize(n: nat): nat
    requires n <= |VertexMembers|
  {
    if n == 0 then 0 else PrefixSize(n - 1) + MemberSize(VertexMembers[n - 1])
  }

  function IndexOf(m: VertexMember): (i: nat)
    ensures i < |VertexMembers| && VertexMembers[i] == m
  {
    match m
    case Pos => 0
    case Normal => 1
    case Color => 2
  }

  /** `offsetof(Vertex, m)` */
  function OffsetOf(m: VertexMember): nat {
    PrefixSize(IndexOf(m))
  }

  /** `sizeof(Vertex)` */
  function SizeOfVertex(): nat {
    PrefixSize(|VertexMembers|)
  }

  /** Byte size of the vertex attribute formats in use. */
  function FormatSize(f: Format): nat {
    if f == R32G32B32_SFLOAT then 3 * FLOAT_SIZE else 0
  }

  datatype InputRate = PerVertex | PerInstance
  /** `VkVertexInputBindingDescription` */
  datatype BindingDescription = BindingDescription(binding: nat, stride: nat, inputRate: InputRate)
  /** `VkVertexInputAttributeDescription` */
  datatype AttributeDescription = AttributeDescription(location: nat, binding: nat, format: Format, offset: nat)

  /** `Vertex::getBindingDescriptions` */
  function BindingDescriptions(): (r: seq<BindingDescription>)
    ensures |r| == 1
    ensures r[0].binding == 0 && r[0].inputRate == PerVertex
    ensures r[0].stride == 36
  {
    [BindingDescription(0, SizeOfVertex(), PerVertex)]
  }

  /** `Vertex::getAttributeDescriptions` */
  function AttributeDescriptions(): (r: seq<AttributeDescription>)
    ensures |r| == 3
    ensures forall i :: 0 <= i < 3 ==> r[i].location == i && r[i].binding == 0
    ensures forall i :: 0 <= i < 3 ==> r[i].format == R32G32B32_SFLOAT
    ensures forall i :: 0 <= i < 3 ==> r[i].offset == OffsetOf(VertexMembers[i])
    ensures r[0].offset < r[1].offset < r[2].offset
  {
    [ AttributeDescription(0, 0, R32G32B32_SFLOAT, OffsetOf(Pos)),
      AttributeDescription(1, 0, R32G32B32_SFLOAT, OffsetOf(Normal)),
      AttributeDescription(2, 0, R32G32B32_SFLOAT, OffsetOf(Color)) ]
  }

  /**
    The attributes tile the vertex exactly: the first starts at offset 0,
    each starts where the previous one ends, the last ends at the binding's
    stride, and every attribute reads from a binding that exists.
   */
  lemma AttributesTileVertex()
    ensures var a := AttributeDescriptions(); var b := BindingDescriptions();
      && a[0].offset == 0
      && (forall i :: 0 < i < |a| ==> a[i].offset == a[i - 1].offset + FormatSize(a[i - 1].format))
      && a[|a| - 1].offset + FormatSize(a[|a| - 1].format) == b[0].stride
      && (forall i :: 0 <= i < |a| ==> exists j :: 0 <= j < |b| && b[j].binding == a[i].binding)
  {
    var a := AttributeDescriptions();
    var b := BindingDescriptions();
    forall i | 0 <= i < |a|
      ensures exists j :: 0 <= j < |b| && b[j].binding == a[i].binding
    {
      assert b[0].binding == a[i].binding;
    }
  }
}
