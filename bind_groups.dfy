/** The bind-group table of src/gpu/bindGroups.js: for each kernel and
    group index, which resource sits at each binding slot, together with
    the access each kernel's layout gives those slots in
    src/rendering/shaders.js. The four field buffers are named by role. */
module BindGroups {

  /** The four field buffers: densityBuffers[0..1] and velocityBuffers[0..1]. */
  datatype Role = Density0 | Density1 | Velocity0 | Velocity1

  /** What a binding slot holds. */
  datatype Resource =
    | Uniforms
    | Field(role: Role)
    | DensitySource
    | VelocitySource
    | TextureView
    | Sampler

  /** The bind-group arrays built by createBindGroups (drawTexture, a single
      group with no field buffer, is not a field pass and is left out). */
  datatype Op =
    | AddDensity | AddVelocity | Boundary | DiffuseDensity | DiffuseVelocity
    | AdvectDensity | AdvectVelocity | Project1 | Project2 | Project3
    | CreateTexture | DrawBuffer

  /** How a kernel's layout declares a slot. */
  datatype Access = UniformSlot | ReadOnly | ReadWrite | WriteOnly | SampledTexture | SamplerSlot

  function DensityBuffer(i: nat): Role { if i == 0 then Density0 else Density1 }

  function VelocityBuffer(i: nat): Role { if i == 0 then Velocity0 else Velocity1 }

  /** The order shared by boundary, createTexture and drawBuffer:
      density0, density1, velocity0, velocity1. */
  function FieldAt(i: nat): Role
  {
    if i == 0 then Density0 else if i == 1 then Density1 else if i == 2 then Velocity0 else Velocity1
  }

  /** Number of groups in each array. */
  function Count(op: Op): nat
  {
    match op
    case Boundary | AdvectDensity | CreateTexture | DrawBuffer => 4
    case _ => 2
  }

  /** The resources of group `i` of `op`, binding 0 first, as the table
      lists them. */
  function Entries(op: Op, i: nat): seq<Resource>
    requires i < Count(op)
  {
    match op
    case AddDensity =>
      if i == 0 then [Uniforms, Field(Density0), Field(Density1), DensitySource]
      else [Uniforms, Field(Density1), Field(Density0), DensitySource]
    case AddVelocity =>
      if i == 0 then [Uniforms, Field(Velocity0), Field(Velocity1), VelocitySource]
      else [Uniforms, Field(Velocity1), Field(Velocity0), VelocitySource]
    case Boundary =>
      if i == 0 then [Uniforms, Field(Density0)]
      else if i == 1 then [Uniforms, Field(Density1)]
      else if i == 2 then [Uniforms, Field(Velocity0)]
      else [Uniforms, Field(Velocity1)]
    case DiffuseDensity =>
      if i == 0 then [Uniforms, Field(Density0), Field(Density1)]
      else [Uniforms, Field(Density1), Field(Density0)]
    case DiffuseVelocity =>
      if i == 0 then [Uniforms, Field(Velocity0), Field(Velocity1)]
      else [Uniforms, Field(Velocity1), Field(Velocity0)]
    case AdvectDensity =>
      if i == 0 then [Uniforms, Field(Density0), Field(Density1), Field(Velocity0)]
      else if i == 1 then [Uniforms, Field(Density0), Field(Density1), Field(Velocity1)]
      else if i == 2 then [Uniforms, Field(Density1), Field(Density0), Field(Velocity0)]
      else [Uniforms, Field(Density1), Field(Density0), Field(Velocity1)]
    case AdvectVelocity =>
      if i == 0 then [Uniforms, Field(Velocity0), Field(Velocity1), Field(Velocity1)]
      else [Uniforms, Field(Velocity1), Field(Velocity0), Field(Velocity0)]
    case Project1 | Project2 | Project3 =>
      if i == 0 then [Uniforms, Field(Velocity0), Field(Velocity1)]
      else [Uniforms, Field(Velocity1), Field(Velocity0)]
    case CreateTexture =>
      if i == 0 then [Uniforms, TextureView, Field(Density0)]
      else if i == 1 then [Uniforms, TextureView, Field(Density1)]
      else if i == 2 then [Uniforms, TextureView, Field(Velocity0)]
      else [Uniforms, TextureView, Field(Velocity1)]
    case DrawBuffer =>
      if i == 0 then [Uniforms, Field(Density0)]
      else if i == 1 then [Uniforms, Field(Density1)]
      else if i == 2 then [Uniforms, Field(Velocity0)]
      else [Uniforms, Field(Velocity1)]
  }

  /** The access the kernel's WGSL declaration gives each binding slot. */
  function Layout(op: Op): seq<Access>
  {
    match op
    case AddDensity | AddVelocity => [UniformSlot, ReadWrite, ReadOnly, UniformSlot]
    case Boundary => [UniformSlot, ReadWrite]
    case DiffuseDensity | DiffuseVelocity => [UniformSlot, ReadWrite, ReadOnly]
    case AdvectDensity | AdvectVelocity => [UniformSlot, ReadWrite, ReadOnly, ReadOnly]
    case Project1 | Project2 => [UniformSlot, ReadOnly, ReadWrite]
    case Project3 => [UniformSlot, ReadWrite, ReadOnly]
    case CreateTexture => [UniformSlot, WriteOnly, ReadOnly]
    case DrawBuffer => [UniformSlot, ReadOnly]
  }

  /** Every group supplies exactly the slots its kernel's layout declares. */
  lemma GroupsMatchLayouts(op: Op, i: nat)
    requires i < Count(op)
    ensures |Entries(op, i)| == |Layout(op)|
    ensures forall s :: 0 <= s < |Layout(op)| ==>
      (Layout(op)[s] == UniformSlot <==> Entries(op, i)[s] in {Uniforms, DensitySource, VelocitySource})
  {
  }

  /** The field buffers group `i` of `op` writes. */
  function Writes(op: Op, i: nat): (w: set<Role>)
    requires i < Count(op)
  {
    var e, l := Entries(op, i), Layout(op);
    set s, r | 0 <= s < |e| && s < |l| && e[s] == Field(r) && l[s] in {ReadWrite, WriteOnly} :: r
  }

  /** The field buffers group `i` of `op` only reads. */
  function Reads(op: Op, i: nat): (rd: set<Role>)
    requires i < Count(op)
  {
    var e, l := Entries(op, i), Layout(op);
    set s, r | 0 <= s < |e| && s < |l| && e[s] == Field(r) && l[s] == ReadOnly :: r
  }

  /** The one field buffer a pass writes into (the pressure scratch for
      project1 and project2). */
  function Target(op: Op, i: nat): (r: Role)
    requires i < Count(op) && op != CreateTexture && op != DrawBuffer
    ensures Writes(op, i) == {r}
  {
    var e := Entries(op, i);
    var s := if op == Project1 || op == Project2 then 2 else 1;
    WritesOf(op, i, s);
    e[s].role
  }

  lemma WritesOf(op: Op, i: nat, s: nat)
    requires i < Count(op) && op != CreateTexture && op != DrawBuffer
    requires s == if op == Project1 || op == Project2 then 2 else 1
    ensures s < |Entries(op, i)| && Entries(op, i)[s].Field? && Writes(op, i) == {Entries(op, i)[s].role}
  {
    var e, l := Entries(op, i), Layout(op);
    forall r | r in Writes(op, i) ensures r == e[s].role {
      var t :| 0 <= t < |e| && t < |l| && e[t] == Field(r) && l[t] in {ReadWrite, WriteOnly};
      assert t == s;
    }
    assert e[s].role in Writes(op, i);
  }

  /** addDensity[i], addVelocity[i], diffuseDensity[i] and
      diffuseVelocity[i] write pair[i] and read pair[1 - i]. */
  lemma SourceAndDiffuseGroups(i: nat)
    requires i < 2
    ensures Writes(AddDensity, i) == Writes(DiffuseDensity, i) == {DensityBuffer(i)}
    ensures Reads(AddDensity, i) == Reads(DiffuseDensity, i) == {DensityBuffer(1 - i)}
    ensures Writes(AddVelocity, i) == Writes(DiffuseVelocity, i) == {VelocityBuffer(i)}
    ensures Reads(AddVelocity, i) == Reads(DiffuseVelocity, i) == {VelocityBuffer(1 - i)}
  {
    assert Target(AddDensity, i) == DensityBuffer(i);
    assert Target(DiffuseDensity, i) == DensityBuffer(i);
    assert Target(AddVelocity, i) == VelocityBuffer(i);
    assert Target(DiffuseVelocity, i) == VelocityBuffer(i);
    ReadsOfSlot(AddDensity, i, 2);
    ReadsOfSlot(DiffuseDensity, i, 2);
    ReadsOfSlot(AddVelocity, i, 2);
    ReadsOfSlot(DiffuseVelocity, i, 2);
  }

  /** A group whose only read-only slot is `s` reads exactly that buffer. */
  lemma ReadsOfSlot(op: Op, i: nat, s: nat)
    requires i < Count(op) && s < |Entries(op, i)| && s < |Layout(op)|
    requires Entries(op, i)[s].Field? && Layout(op)[s] == ReadOnly
    requires forall t :: 0 <= t < |Layout(op)| && t != s ==> Layout(op)[t] != ReadOnly
    ensures Reads(op, i) == {Entries(op, i)[s].role}
  {
    var e, l := Entries(op, i), Layout(op);
    forall r | r in Reads(op, i) ensures r == e[s].role {
      var t :| 0 <= t < |e| && t < |l| && e[t] == Field(r) && l[t] == ReadOnly;
      assert t == s;
    }
    assert e[s].role in Reads(op, i);
  }

  /** advectDensity[k] writes density[k div 2], reads density[1 - k div 2]
      as the source and samples velocity[k mod 2]. */
  lemma AdvectDensityGroups(k: nat)
    requires k < 4
    ensures Entries(AdvectDensity, k)[1] == Field(DensityBuffer(k / 2))
    ensures Entries(AdvectDensity, k)[2] == Field(DensityBuffer(1 - k / 2))
    ensures Entries(AdvectDensity, k)[3] == Field(VelocityBuffer(k % 2))
    ensures Writes(AdvectDensity, k) == {DensityBuffer(k / 2)}
    ensures Reads(AdvectDensity, k) == {DensityBuffer(1 - k / 2), VelocityBuffer(k % 2)}
  {
    assert Target(AdvectDensity, k) == DensityBuffer(k / 2);
    ReadsOfTwoSlots(AdvectDensity, k);
  }

  /** advectVelocity[i] writes velocity[i] and uses velocity[1 - i] both as
      the source and as the velocity it traces back with. */
  lemma AdvectVelocityGroups(i: nat)
    requires i < 2
    ensures Entries(AdvectVelocity, i)[2] == Entries(AdvectVelocity, i)[3] == Field(VelocityBuffer(1 - i))
    ensures Writes(AdvectVelocity, i) == {VelocityBuffer(i)}
    ensures Reads(AdvectVelocity, i) == {VelocityBuffer(1 - i)}
  {
    assert Target(AdvectVelocity, i) == VelocityBuffer(i);
    ReadsOfTwoSlots(AdvectVelocity, i);
  }

  lemma ReadsOfTwoSlots(op: Op, i: nat)
    requires op == AdvectDensity || op == AdvectVelocity
    requires i < Count(op)
    ensures Reads(op, i) == {Entries(op, i)[2].role, Entries(op, i)[3].role}
  {
    var e, l := Entries(op, i), Layout(op);
    forall r | r in Reads(op, i) ensures r == e[2].role || r == e[3].role {
      var t :| 0 <= t < |e| && t < |l| && e[t] == Field(r) && l[t] == ReadOnly;
      assert t == 2 || t == 3;
    }
    assert e[2].role in Reads(op, i);
    assert e[3].role in Reads(op, i);
  }

  /** project1/2/3[i] bind velocity[i] as the velocity field (binding 1) and
      velocity[1 - i] as the pressure and divergence scratch (binding 2);
      project1 and project2 write the scratch, project3 the velocity. */
  lemma ProjectGroups(i: nat)
    requires i < 2
    ensures forall op | op in {Project1, Project2, Project3} ::
      Entries(op, i)[1] == Field(VelocityBuffer(i)) && Entries(op, i)[2] == Field(VelocityBuffer(1 - i))
    ensures Writes(Project1, i) == Writes(Project2, i) == {VelocityBuffer(1 - i)}
    ensures Reads(Project1, i) == Reads(Project2, i) == {VelocityBuffer(i)}
    ensures Writes(Project3, i) == {VelocityBuffer(i)} && Reads(Project3, i) == {VelocityBuffer(1 - i)}
  {
    assert Target(Project1, i) == VelocityBuffer(1 - i);
    assert Target(Project2, i) == VelocityBuffer(1 - i);
    assert Target(Project3, i) == VelocityBuffer(i);
    ReadsOfSlot(Project1, i, 1);
    ReadsOfSlot(Project2, i, 1);
    ReadsOfSlot(Project3, i, 2);
  }

  /** boundary, createTexture and drawBuffer index the four fields in the
      same order. */
  lemma SharedFieldOrder(i: nat)
    requires i < 4
    ensures Entries(Boundary, i)[1] == Field(FieldAt(i))
    ensures Entries(CreateTexture, i)[2] == Field(FieldAt(i))
    ensures Entries(DrawBuffer, i)[1] == Field(FieldAt(i))
    ensures Writes(Boundary, i) == {FieldAt(i)}
  {
    assert Target(Boundary, i) == FieldAt(i);
  }

  /** No group binds the buffer it writes again as one of its read-only
      inputs. */
  lemma NoReadWriteAliasing(op: Op, i: nat)
    requires i < Count(op)
    ensures Writes(op, i) !! Reads(op, i)
  {
    match op
    case AddDensity => SourceAndDiffuseGroups(i);
    case AddVelocity => SourceAndDiffuseGroups(i);
    case DiffuseDensity => SourceAndDiffuseGroups(i);
    case DiffuseVelocity => SourceAndDiffuseGroups(i);
    case AdvectDensity => AdvectDensityGroups(i);
    case AdvectVelocity => AdvectVelocityGroups(i);
    case Project1 => ProjectGroups(i);
    case Project2 => ProjectGroups(i);
    case Project3 => ProjectGroups(i);
    case Boundary =>
      ReadsNone(op, i);
    case CreateTexture =>
      WritesNone(op, i);
    case DrawBuffer =>
      WritesNone(op, i);
  }

  lemma ReadsNone(op: Op, i: nat)
    requires i < Count(op) && forall t :: 0 <= t < |Layout(op)| ==> Layout(op)[t] != ReadOnly
    ensures Reads(op, i) == {}
  {
    forall r ensures r !in Reads(op, i) {
    }
  }

  lemma WritesNone(op: Op, i: nat)
    requires op == CreateTexture || op == DrawBuffer
    requires i < Count(op)
    ensures Writes(op, i) == {}
  {
    forall r ensures r !in Writes(op, i) {
    }
  }
}
