/**
  `PipelineBuilder` of `src/vulkan/pipeline_builder.cpp`: a record of the
  fixed-function state structs a graphics pipeline is created from, the
  setters that fill them, `clear`, which resets them, and `build`, which
  assembles the `VkGraphicsPipelineCreateInfo`.

  Each state struct carries only its fields; its `sType` is implied by its
  Dafny type, so "only the `sType` set" is the struct's zero value below.
  Floating-point fields hold the literal constants the source writes.
 */
module PipelineBuilder {
  import opened Common
  import opened Types

  // ---------------------------------------------------------------------------
  // Vulkan enumerations; the first constructor of each is the value 0

  datatype Topology = PointList | LineList | TriangleList | OtherTopology(code: nat)
  datatype PolygonMode = Fill | Line | Point
  datatype FrontFace = CounterClockwise | Clockwise
  datatype CompareOp = Never | Less | Equal | LessOrEqual | Greater | NotEqual | GreaterOrEqual | Always
  datatype StencilOp = Keep | OtherStencilOp(code: nat)
  datatype BlendFactor = Zero | One | SrcAlpha | OneMinusSrcAlpha | OtherFactor(code: nat)
  datatype BlendOp = Add | OtherBlendOp(code: nat)
  datatype LogicOp = Clear | Copy | OtherLogicOp(code: nat)
  datatype DynamicState = Viewport | Scissor
  datatype ShaderStageKind = VertexStage | FragmentStage

  /** `VK_SAMPLE_COUNT_1_BIT` */
  const SAMPLE_COUNT_1: nat := 1

  /** `VK_COLOR_COMPONENT_R_BIT | G | B | A` */
  const COLOR_COMPONENT_RGBA: bv32 := 0xF

  // ---------------------------------------------------------------------------
  // State structs

  datatype ShaderStage = ShaderStage(stage: ShaderStageKind, shaderModule: nat, entryPoint: string)

  /** `VkPipelineVertexInputStateCreateInfo`: counts and the arrays they describe. */
  datatype VertexInputState = VertexInputState(
    bindingCount: u32,
    bindings: Option<seq<BindingDescription>>,
    attributeCount: u32,
    attributes: Option<seq<AttributeDescription>>)

  datatype InputAssemblyState = InputAssemblyState(flags: nat, topology: Topology, primitiveRestartEnable: bool)

  datatype RasterizationState = RasterizationState(
    flags: nat,
    depthClampEnable: bool,
    rasterizerDiscardEnable: bool,
    polygonMode: PolygonMode,
    cullMode: nat,
    frontFace: FrontFace,
    depthBiasEnable: bool,
    lineWidth: real)

  datatype MultisampleState = MultisampleState(
    flags: nat,
    rasterizationSamples: nat,
    sampleShadingEnable: bool,
    minSampleShading: real,
    alphaToCoverageEnable: bool,
    alphaToOneEnable: bool)

  datatype StencilOpState = StencilOpState(failOp: StencilOp, passOp: StencilOp, depthFailOp: StencilOp, compareOp: CompareOp)

  datatype DepthStencilState = DepthStencilState(
    depthTestEnable: bool,
    depthWriteEnable: bool,
    depthCompareOp: CompareOp,
    depthBoundsTestEnable: bool,
    stencilTestEnable: bool,
    front: StencilOpState,
    back: StencilOpState,
    minDepthBounds: real,
    maxDepthBounds: real)

  /** `VkPipelineColorBlendAttachmentState` */
  datatype ColorBlendAttachment = ColorBlendAttachment(
    blendEnable: bool,
    srcColorBlendFactor: BlendFactor,
    dstColorBlendFactor: BlendFactor,
    colorBlendOp: BlendOp,
    srcAlphaBlendFactor: BlendFactor,
    dstAlphaBlendFactor: BlendFactor,
    alphaBlendOp: BlendOp,
    colorWriteMask: bv32)

  const EmptyVertexInput := VertexInputState(0, None, 0, None)
  const EmptyInputAssembly := InputAssemblyState(0, PointList, false)
  const EmptyRasterization := RasterizationState(0, false, false, Fill, 0, CounterClockwise, false, 0.0)
  const EmptyMultisample := MultisampleState(0, 0, false, 0.0, false, false)
  const EmptyStencilOp := StencilOpState(Keep, Keep, Keep, Never)
  const EmptyDepthStencil := DepthStencilState(false, false, Never, false, false, EmptyStencilOp, EmptyStencilOp, 0.0, 0.0)
  const EmptyColorBlendAttachment := ColorBlendAttachment(false, Zero, Zero, Add, Zero, Zero, Add, 0)

  /**
    The builder's members. `layout` is `None` until `setPipelineLayout`
    assigns one (the C++ member is left uninitialised).
   */
  datatype Builder = Builder(
    layout: Option<nat>,
    shaderStages: seq<ShaderStage>,
    vertexInput: VertexInputState,
    inputAssembly: InputAssemblyState,
    rasterization: RasterizationState,
    multisample: MultisampleState,
    depthStencil: DepthStencilState,
    colorBlendAttachment: ColorBlendAttachment)

  /** Every state struct holds only its `sType` and there are no shader stages. */
  predicate IsCleared(b: Builder) {
    && b.shaderStages == []
    && b.vertexInput == EmptyVertexInput
    && b.inputAssembly == EmptyInputAssembly
    && b.rasterization == EmptyRasterization
    && b.multisample == EmptyMultisample
    && b.depthStencil == EmptyDepthStencil
    && b.colorBlendAttachment == EmptyColorBlendAttachment
  }

  // ---------------------------------------------------------------------------
  // Operations

  /** `clear`: empty the stages and reset every struct; the layout is kept. */
  function Clear(b: Builder): (r: Builder)
    ensures IsCleared(r)
    ensures r.layout == b.layout
  {
    Builder(b.layout, [], EmptyVertexInput, EmptyInputAssembly, EmptyRasterization, EmptyMultisample,
            EmptyDepthStencil, EmptyColorBlendAttachment)
  }

  /** The constructor: `clear` on a builder whose layout was never set. */
  function NewBuilder(): (r: Builder)
    ensures IsCleared(r) && r.layout.None?
  {
    Clear(Builder(None, [], EmptyVertexInput, EmptyInputAssembly, EmptyRasterization, EmptyMultisample,
                  EmptyDepthStencil, EmptyColorBlendAttachment))
  }

  /** `addShaders`: append a vertex stage and a fragment stage, both entered at `main`. */
  function AddShaders(b: Builder, vertShader: nat, fragShader: nat): (r: Builder)
    ensures |r.shaderStages| == |b.shaderStages| + 2
    ensures r.shaderStages[..|b.shaderStages|] == b.shaderStages
    ensures r.shaderStages[|b.shaderStages|] == ShaderStage(VertexStage, vertShader, "main")
    ensures r.shaderStages[|b.shaderStages| + 1] == ShaderStage(FragmentStage, fragShader, "main")
    ensures r == b.(shaderStages := r.shaderStages)
  {
    b.(shaderStages := b.shaderStages + [ShaderStage(VertexStage, vertShader, "main"),
                                         ShaderStage(FragmentStage, fragShader, "main")])
  }

  /** `setVertexInputStateEmpty`: no bindings and no attributes. */
  function SetVertexInputStateEmpty(b: Builder): (r: Builder)
    ensures r.vertexInput.bindingCount == 0 && r.vertexInput.attributeCount == 0
    ensures r.vertexInput.bindings.None? && r.vertexInput.attributes.None?
    ensures r == b.(vertexInput := r.vertexInput)
  {
    b.(vertexInput := VertexInputState(0, None, 0, None))
  }

  /** `setVertexInputState`: the two arrays, with counts narrowed to `uint32_t`. */
  function SetVertexInputState(b: Builder, bindings: seq<BindingDescription>, attributes: seq<AttributeDescription>): (r: Builder)
    ensures |bindings| <= U32_MAX ==> r.vertexInput.bindingCount == |bindings|
    ensures |attributes| <= U32_MAX ==> r.vertexInput.attributeCount == |attributes|
    ensures r.vertexInput.bindings == Some(bindings) && r.vertexInput.attributes == Some(attributes)
    ensures r == b.(vertexInput := r.vertexInput)
  {
    b.(vertexInput := VertexInputState(ToU32(|bindings|), Some(bindings), ToU32(|attributes|), Some(attributes)))
  }

  /** `setInputAssemblyState` */
  function SetInputAssemblyState(b: Builder, topology: Topology, flags: nat, primitiveRestartEnable: bool): (r: Builder)
    ensures r.inputAssembly == InputAssemblyState(flags, topology, primitiveRestartEnable)
    ensures r == b.(inputAssembly := r.inputAssembly)
  {
    b.(inputAssembly := b.inputAssembly.(topology := topology, flags := flags, primitiveRestartEnable := primitiveRestartEnable))
  }

  /** `setRasterizationState`: the arguments, no depth bias and a line width of 1 whatever they are. */
  function SetRasterizationState(b: Builder, polygonMode: PolygonMode, cullMode: nat, frontFace: FrontFace, flags: nat): (r: Builder)
    ensures r.rasterization.polygonMode == polygonMode && r.rasterization.cullMode == cullMode
    ensures r.rasterization.frontFace == frontFace && r.rasterization.flags == flags
    ensures !r.rasterization.depthBiasEnable && r.rasterization.lineWidth == 1.0
    ensures r.rasterization.depthClampEnable == b.rasterization.depthClampEnable
    ensures r.rasterization.rasterizerDiscardEnable == b.rasterization.rasterizerDiscardEnable
    ensures r == b.(rasterization := r.rasterization)
  {
    b.(rasterization := b.rasterization.(polygonMode := polygonMode, cullMode := cullMode, frontFace := frontFace,
                                         flags := flags, depthBiasEnable := false, lineWidth := 1.0))
  }

  /** `setMultisampleState`: sample count and flags only. */
  function SetMultisampleState(b: Builder, rasterizationSamples: nat, flags: nat): (r: Builder)
    ensures r.multisample == b.multisample.(rasterizationSamples := rasterizationSamples, flags := flags)
    ensures r == b.(multisample := r.multisample)
  {
    b.(multisample := b.multisample.(rasterizationSamples := rasterizationSamples, flags := flags))
  }

  /** `setMultisamplingNone`: one sample per pixel, no sample shading, no alpha-to-coverage or alpha-to-one. */
  function SetMultisamplingNone(b: Builder): (r: Builder)
    ensures r.multisample.rasterizationSamples == SAMPLE_COUNT_1
    ensures !r.multisample.sampleShadingEnable && r.multisample.minSampleShading == 1.0
    ensures !r.multisample.alphaToCoverageEnable && !r.multisample.alphaToOneEnable
    ensures r.multisample.flags == b.multisample.flags
    ensures r == b.(multisample := r.multisample)
  {
    b.(multisample := MultisampleState(b.multisample.flags, SAMPLE_COUNT_1, false, 1.0, false, false))
  }

  /**
    `setDepthStencilState`: `depthWriteEnable` goes into both the write and
    the bounds-test switch, the compare op is set and the back face compares
    with `ALWAYS`; the `depthTestEnable` argument is not used.
   */
  function SetDepthStencilState(b: Builder, depthTestEnable: bool, depthWriteEnable: bool, depthCompareOp: CompareOp): (r: Builder)
    ensures r.depthStencil.depthWriteEnable == depthWriteEnable
    ensures r.depthStencil.depthBoundsTestEnable == depthWriteEnable
    ensures r.depthStencil.depthCompareOp == depthCompareOp
    ensures r.depthStencil.back.compareOp == Always
    ensures r.depthStencil.depthTestEnable == b.depthStencil.depthTestEnable
    ensures r.depthStencil.front == b.depthStencil.front && r.depthStencil.stencilTestEnable == b.depthStencil.stencilTestEnable
    ensures r == b.(depthStencil := r.depthStencil)
  {
    b.(depthStencil := b.depthStencil.(depthBoundsTestEnable := depthWriteEnable, depthWriteEnable := depthWriteEnable,
                                       depthCompareOp := depthCompareOp,
                                       back := b.depthStencil.back.(compareOp := Always)))
  }

  /** `disableDepthtest`: every switch off, stencil states zeroed, depth bounds [0, 1]. */
  function DisableDepthtest(b: Builder): (r: Builder)
    ensures !r.depthStencil.depthTestEnable && !r.depthStencil.depthWriteEnable
    ensures !r.depthStencil.depthBoundsTestEnable && !r.depthStencil.stencilTestEnable
    ensures r.depthStencil.depthCompareOp == Never
    ensures r.depthStencil.front == EmptyStencilOp && r.depthStencil.back == EmptyStencilOp
    ensures r.depthStencil.minDepthBounds == 0.0 && r.depthStencil.maxDepthBounds == 1.0
    ensures r == b.(depthStencil := r.depthStencil)
  {
    b.(depthStencil := DepthStencilState(false, false, Never, false, false, EmptyStencilOp, EmptyStencilOp, 0.0, 1.0))
  }

  /** `setPipelineLayout` */
  function SetPipelineLayout(b: Builder, layout: nat): (r: Builder)
    ensures r.layout == Some(layout)
    ensures r == b.(layout := r.layout)
  {
    b.(layout := Some(layout))
  }

  /** `disableColorBlending`: write all four channels, blending off; the factors are left as they were. */
  function DisableColorBlending(b: Builder): (r: Builder)
    ensures r.colorBlendAttachment.colorWriteMask == COLOR_COMPONENT_RGBA
    ensures !r.colorBlendAttachment.blendEnable
    ensures r.colorBlendAttachment.(colorWriteMask := b.colorBlendAttachment.colorWriteMask, blendEnable := b.colorBlendAttachment.blendEnable)
            == b.colorBlendAttachment
    ensures r == b.(colorBlendAttachment := r.colorBlendAttachment)
  {
    b.(colorBlendAttachment := b.colorBlendAttachment.(colorWriteMask := COLOR_COMPONENT_RGBA, blendEnable := false))
  }

  /**
    The common shape of the two blending presets: all channels written,
    `src * SRC_ALPHA + dst * dstColor` for colour and `src * 1 + dst * 0`
    for alpha.
   */
  function BlendPreset(dstColor: BlendFactor): ColorBlendAttachment {
    ColorBlendAttachment(true, SrcAlpha, dstColor, Add, One, Zero, Add, COLOR_COMPONENT_RGBA)
  }

  /** `enableBlendingAdditive`: the preset with destination colour factor `ONE`. */
  function EnableBlendingAdditive(b: Builder): (r: Builder)
    ensures r.colorBlendAttachment.blendEnable && r.colorBlendAttachment.colorWriteMask == COLOR_COMPONENT_RGBA
    ensures r.colorBlendAttachment.srcColorBlendFactor == SrcAlpha && r.colorBlendAttachment.dstColorBlendFactor == One
    ensures r.colorBlendAttachment.colorBlendOp == Add && r.colorBlendAttachment.alphaBlendOp == Add
    ensures r.colorBlendAttachment.srcAlphaBlendFactor == One && r.colorBlendAttachment.dstAlphaBlendFactor == Zero
    ensures r == b.(colorBlendAttachment := r.colorBlendAttachment)
  {
    b.(colorBlendAttachment := BlendPreset(One))
  }

  /** `enableAlphaBlend`: the preset with destination colour factor `ONE_MINUS_SRC_ALPHA`. */
  function EnableAlphaBlend(b: Builder): (r: Builder)
    ensures r.colorBlendAttachment.blendEnable && r.colorBlendAttachment.colorWriteMask == COLOR_COMPONENT_RGBA
    ensures r.colorBlendAttachment.srcColorBlendFactor == SrcAlpha && r.colorBlendAttachment.dstColorBlendFactor == OneMinusSrcAlpha
    ensures r.colorBlendAttachment.colorBlendOp == Add && r.colorBlendAttachment.alphaBlendOp == Add
    ensures r.colorBlendAttachment.srcAlphaBlendFactor == One && r.colorBlendAttachment.dstAlphaBlendFactor == Zero
    ensures r == b.(colorBlendAttachment := r.colorBlendAttachment)
  {
    b.(colorBlendAttachment := BlendPreset(OneMinusSrcAlpha))
  }

  // ---------------------------------------------------------------------------
  // build

  /** `VkPipelineViewportStateCreateInfo`: counts only, the rectangles are dynamic. */
  datatype ViewportState = ViewportState(viewportCount: nat, scissorCount: nat)

  /** `VkPipelineColorBlendStateCreateInfo` */
  datatype ColorBlendState = ColorBlendState(logicOpEnable: bool, logicOp: LogicOp, attachments: seq<ColorBlendAttachment>)

  /** `VkGraphicsPipelineCreateInfo` as `build` fills it. */
  datatype GraphicsPipelineCreateInfo = GraphicsPipelineCreateInfo(
    stageCount: u32,
    stages: seq<ShaderStage>,
    vertexInput: VertexInputState,
    inputAssembly: InputAssemblyState,
    rasterization: RasterizationState,
    viewport: ViewportState,
    multisample: MultisampleState,
    depthStencil: Option<DepthStencilState>,
    colorBlend: ColorBlendState,
    dynamicStates: seq<DynamicState>,
    layout: Option<nat>,
    renderPass: nat)

  /**
    `build`: assemble the create-info from the builder's state, with scissor
    and viewport dynamic, one of each, no depth-stencil state and a single
    colour attachment; `created` is the result of
    `vkCreateGraphicsPipelines`.
   */
  function Build(b: Builder, renderPass: nat, created: VkResult): (r: Result<GraphicsPipelineCreateInfo>)
    ensures r.Ok? <==> created == Success
    ensures r.Err? ==> r.error == PipelineCreationFailed
    ensures r.Ok? ==>
      var info := r.value;
      && (|b.shaderStages| <= U32_MAX ==> info.stageCount == |b.shaderStages|)
      && info.stages == b.shaderStages
      && info.dynamicStates == [Scissor, Viewport]
      && info.viewport == ViewportState(1, 1)
      && info.depthStencil.None?
      && info.colorBlend == ColorBlendState(false, Copy, [b.colorBlendAttachment])
      && info.vertexInput == b.vertexInput && info.inputAssembly == b.inputAssembly
      && info.rasterization == b.rasterization && info.multisample == b.multisample
      && info.layout == b.layout && info.renderPass == renderPass
  {
    if created != Success then Err(PipelineCreationFailed)
    else
      Ok(GraphicsPipelineCreateInfo(
        ToU32(|b.shaderStages|), b.shaderStages, b.vertexInput, b.inputAssembly, b.rasterization,
        ViewportState(1, 1), b.multisample, None, ColorBlendState(false, Copy, [b.colorBlendAttachment]),
        [Scissor, Viewport], b.layout, renderPass))
  }

  // ---------------------------------------------------------------------------
  // Properties

  /**
    `clear` is idempotent, forgets everything but the layout, and the
    constructor's state is what `clear` produces.
   */
  lemma ClearForgets(b1: Builder, b2: Builder)
    ensures Clear(Clear(b1)) == Clear(b1)
    ensures Clear(b1) == Clear(b2) <==> b1.layout == b2.layout
    ensures Clear(NewBuilder()) == NewBuilder()
  {
    if Clear(b1) == Clear(b2) {
      assert Clear(b1).layout == Clear(b2).layout;
    }
  }

  /** Every setter's effect is undone by `clear`, except that of `setPipelineLayout`. */
  lemma ClearUndoesSetters(b: Builder, v: nat, f: nat, t: Topology, pm: PolygonMode, ff: FrontFace, on: bool, op: CompareOp,
                           bs: seq<BindingDescription>, attrs: seq<AttributeDescription>)
    ensures Clear(AddShaders(b, v, f)) == Clear(b)
    ensures Clear(SetVertexInputStateEmpty(b)) == Clear(b)
    ensures Clear(SetVertexInputState(b, bs, attrs)) == Clear(b)
    ensures Clear(SetInputAssemblyState(b, t, f, on)) == Clear(b)
    ensures Clear(SetRasterizationState(b, pm, v, ff, f)) == Clear(b)
    ensures Clear(SetMultisampleState(b, v, f)) == Clear(b)
    ensures Clear(SetMultisamplingNone(b)) == Clear(b)
    ensures Clear(SetDepthStencilState(b, on, on, op)) == Clear(b)
    ensures Clear(DisableDepthtest(b)) == Clear(b)
    ensures Clear(DisableColorBlending(b)) == Clear(b)
    ensures Clear(EnableBlendingAdditive(b)) == Clear(b)
    ensures Clear(EnableAlphaBlend(b)) == Clear(b)
    ensures Clear(SetPipelineLayout(b, v)).layout == Some(v)
  {
  }

  /**
    `build` never passes the depth-stencil struct, so neither depth-stencil
    setter changes the pipeline that is built.
   */
  lemma DepthStencilIgnoredByBuild(b: Builder, renderPass: nat, created: VkResult,
                                   depthTestEnable: bool, depthWriteEnable: bool, op: CompareOp)
    ensures Build(SetDepthStencilState(b, depthTestEnable, depthWriteEnable, op), renderPass, created) == Build(b, renderPass, created)
    ensures Build(DisableDepthtest(b), renderPass, created) == Build(b, renderPass, created)
  {
  }

  /**
    `setDepthStencilState` ignores its `depthTestEnable` argument, so after
    `clear` depth testing stays off whatever is passed.
   */
  lemma DepthTestArgumentIgnored(b: Builder, t1: bool, t2: bool, w: bool, op: CompareOp)
    ensures SetDepthStencilState(b, t1, w, op) == SetDepthStencilState(b, t2, w, op)
    ensures !SetDepthStencilState(Clear(b), t1, w, op).depthStencil.depthTestEnable
  {
  }

  /**
    The additive and the alpha preset differ in exactly one field, the
    destination colour factor, and each overrides whatever blend state was
    there before.
   */
  lemma BlendPresetsDiffer(b: Builder, c: Builder)
    ensures EnableBlendingAdditive(b).colorBlendAttachment.(dstColorBlendFactor := OneMinusSrcAlpha)
            == EnableAlphaBlend(b).colorBlendAttachment
    ensures EnableBlendingAdditive(b).colorBlendAttachment != EnableAlphaBlend(b).colorBlendAttachment
    ensures EnableAlphaBlend(EnableBlendingAdditive(b)) == EnableAlphaBlend(b)
    ensures EnableBlendingAdditive(EnableAlphaBlend(b)) == EnableBlendingAdditive(b)
    ensures b.colorBlendAttachment != c.colorBlendAttachment ==>
              EnableAlphaBlend(b).colorBlendAttachment == EnableAlphaBlend(c).colorBlendAttachment
  {
  }

  /**
    Disabling blending after a preset keeps the preset's factors: the
    attachment differs from the preset only in `blendEnable`.
   */
  lemma DisableKeepsPresetFactors(b: Builder)
    ensures DisableColorBlending(EnableAlphaBlend(b)).colorBlendAttachment
            == EnableAlphaBlend(b).colorBlendAttachment.(blendEnable := false)
    ensures DisableColorBlending(EnableAlphaBlend(b)).colorBlendAttachment != DisableColorBlending(Clear(b)).colorBlendAttachment
  {
  }

  /** Successive `addShaders` calls, one per (vertex, fragment) pair. */
  function AddShaderPairs(b: Builder, pairs: seq<(nat, nat)>): Builder
    decreases |pairs|
  {
    if |pairs| == 0 then b else AddShaderPairs(AddShaders(b, pairs[0].0, pairs[0].1), pairs[1..])
  }

  /**
    `n` calls of `addShaders` append `2 * n` stages, alternately vertex and
    fragment, all entered at `main`, and change nothing else.
   */
  lemma {:induction false} AddShaderPairsStages(b: Builder, pairs: seq<(nat, nat)>)
    decreases |pairs|
    ensures var r := AddShaderPairs(b, pairs);
      && |r.shaderStages| == |b.shaderStages| + 2 * |pairs|
      && r.shaderStages[..|b.shaderStages|] == b.shaderStages
      && (forall k :: 0 <= k < |pairs| ==>
            && r.shaderStages[|b.shaderStages| + 2 * k] == ShaderStage(VertexStage, pairs[k].0, "main")
            && r.shaderStages[|b.shaderStages| + 2 * k + 1] == ShaderStage(FragmentStage, pairs[k].1, "main"))
      && r == b.(shaderStages := r.shaderStages)
  {
    if |pairs| > 0 {
      var b1 := AddShaders(b, pairs[0].0, pairs[0].1);
      AddShaderPairsStages(b1, pairs[1..]);
      var r := AddShaderPairs(b1, pairs[1..]);
      var n := |b.shaderStages|;
      assert r.shaderStages[..n + 2] == b1.shaderStages;
      assert r.shaderStages[..n] == b1.shaderStages[..n];
      forall k | 0 <= k < |pairs|
        ensures r.shaderStages[n + 2 * k] == ShaderStage(VertexStage, pairs[k].0, "main")
        ensures r.shaderStages[n + 2 * k + 1] == ShaderStage(FragmentStage, pairs[k].1, "main")
      {
        if k == 0 {
          assert r.shaderStages[n] == r.shaderStages[..n + 2][n];
          assert r.shaderStages[n + 1] == r.shaderStages[..n + 2][n + 1];
        } else {
          assert pairs[1..][k - 1] == pairs[k];
          assert n + 2 + 2 * (k - 1) == n + 2 * k;
        }
      }
    }
  }
}
