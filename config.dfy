/*
  The draw-mode flags of src/config.c: one bit per mode in a word that the
  enable, disable and toggle operations update with OR, AND-NOT and XOR.
*/
module Config {

  /** The draw modes.  `Textured` is used by src/config.c but has no value in its enum; it is given the next free bit. */
  datatype Flag = Wireframe | VertexPoint | Solid | BackFaceCulled | Textured

  function Bit(f: Flag): (b: bv32)
    ensures b != 0
  {
    match f
    case Wireframe => 1
    case VertexPoint => 2
    case Solid => 4
    case BackFaceCulled => 8
    case Textured => 16
  }

  /** Distinct modes occupy disjoint bits. */
  lemma BitsDisjoint(f: Flag, g: Flag)
    requires f != g
    ensures Bit(f) & Bit(g) == 0
  {
  }

  /** The `is_*_enabled` test: every bit of the mode is set. */
  predicate Has(c: bv32, f: Flag) {
    c & Bit(f) == Bit(f)
  }

  /** The initial configuration: wireframe, vertex points, solid fill and back-face culling. */
  const Initial: bv32 := Bit(Wireframe) | Bit(VertexPoint) | Bit(Solid) | Bit(BackFaceCulled)

  lemma InitialModes()
    ensures Has(Initial, Wireframe) && Has(Initial, VertexPoint) && Has(Initial, Solid)
    ensures Has(Initial, BackFaceCulled) && !Has(Initial, Textured)
  {
  }

  /** `draw_config |= f`: the mode is selected afterwards. */
  function Enable(c: bv32, f: Flag): (r: bv32)
    ensures Has(r, f)
  {
    c | Bit(f)
  }

  /** `draw_config &= ~f`: the mode is deselected afterwards. */
  function Disable(c: bv32, f: Flag): (r: bv32)
    ensures !Has(r, f)
  {
    c & !Bit(f)
  }

  /** `draw_config ^= f`: the mode is flipped. */
  function Toggle(c: bv32, f: Flag): (r: bv32)
    ensures Has(r, f) <==> !Has(c, f)
  {
    c ^ Bit(f)
  }

  /** Enabling one mode leaves every other mode as it was. */
  lemma EnableKeepsOthers(c: bv32, f: Flag, g: Flag)
    requires f != g
    ensures Has(Enable(c, f), g) <==> Has(c, g)
  {
    BitsDisjoint(f, g);
  }

  /** Disabling one mode leaves every other mode as it was. */
  lemma DisableKeepsOthers(c: bv32, f: Flag, g: Flag)
    requires f != g
    ensures Has(Disable(c, f), g) <==> Has(c, g)
  {
    BitsDisjoint(f, g);
  }

  /** Toggling one mode leaves every other mode as it was. */
  lemma ToggleKeepsOthers(c: bv32, f: Flag, g: Flag)
    requires f != g
    ensures Has(Toggle(c, f), g) <==> Has(c, g)
  {
    BitsDisjoint(f, g);
  }

  /** Toggling a mode twice restores the whole configuration. */
  lemma ToggleTwice(c: bv32, f: Flag)
    ensures Toggle(Toggle(c, f), f) == c
  {
  }

  /** Enabling a mode twice is the same as enabling it once. */
  lemma EnableIdempotent(c: bv32, f: Flag)
    ensures Enable(Enable(c, f), f) == Enable(c, f)
  {
  }

  /** Disabling a mode twice is the same as disabling it once. */
  lemma DisableIdempotent(c: bv32, f: Flag)
    ensures Disable(Disable(c, f), f) == Disable(c, f)
  {
  }

  /** Solid and textured fill are never both selected. */
  predicate FillExclusive(c: bv32) {
    !(Has(c, Solid) && Has(c, Textured))
  }

  /** The global `draw_config`. */
  class DrawConfig {
    var bits: bv32

    ghost predicate Valid()
      reads this
    {
      FillExclusive(bits)
    }

    constructor ()
      ensures Valid() && bits == Initial
    {
      bits := Initial;
    }

    method EnableWireframe()
      requires Valid()
      modifies this
      ensures Valid() && bits == Enable(old(bits), Wireframe)
    {
      EnableKeepsOthers(bits, Wireframe, Solid);
      EnableKeepsOthers(bits, Wireframe, Textured);
      bits := Enable(bits, Wireframe);
    }

    method EnableVertexPoint()
      requires Valid()
      modifies this
      ensures Valid() && bits == Enable(old(bits), VertexPoint)
    {
      EnableKeepsOthers(bits, VertexPoint, Solid);
      EnableKeepsOthers(bits, VertexPoint, Textured);
      bits := Enable(bits, VertexPoint);
    }

    /** Selects solid fill, which deselects textured fill. */
    method EnableSolid()
      modifies this
      ensures Valid() && bits == Disable(Enable(old(bits), Solid), Textured)
      ensures Has(bits, Solid) && !Has(bits, Textured)
    {
      bits := Enable(bits, Solid);
      DisableKeepsOthers(bits, Textured, Solid);
      DisableTextured();
    }

    /** Selects textured fill, which deselects solid fill. */
    method EnableTextured()
      modifies this
      ensures Valid() && bits == Disable(Enable(old(bits), Textured), Solid)
      ensures Has(bits, Textured) && !Has(bits, Solid)
    {
      bits := Enable(bits, Textured);
      DisableKeepsOthers(bits, Solid, Textured);
      DisableSolid();
    }

    method EnableBackfaceCulling()
      requires Valid()
      modifies this
      ensures Valid() && bits == Enable(old(bits), BackFaceCulled)
    {
      EnableKeepsOthers(bits, BackFaceCulled, Solid);
      EnableKeepsOthers(bits, BackFaceCulled, Textured);
      bits := Enable(bits, BackFaceCulled);
    }

    method DisableWireframe()
      requires Valid()
      modifies this
      ensures Valid() && bits == Disable(old(bits), Wireframe)
    {
      DisableKeepsOthers(bits, Wireframe, Solid);
      DisableKeepsOthers(bits, Wireframe, Textured);
      bits := Disable(bits, Wireframe);
    }

    method DisableVertexPoint()
      requires Valid()
      modifies this
      ensures Valid() && bits == Disable(old(bits), VertexPoint)
    {
      DisableKeepsOthers(bits, VertexPoint, Solid);
      DisableKeepsOthers(bits, VertexPoint, Textured);
      bits := Disable(bits, VertexPoint);
    }

    method DisableSolid()
      modifies this
      ensures Valid() && bits == Disable(old(bits), Solid)
    {
      bits := Disable(bits, Solid);
    }

    method DisableTextured()
      modifies this
      ensures Valid() && bits == Disable(old(bits), Textured)
    {
      bits := Disable(bits, Textured);
    }

    method DisableBackfaceCulling()
      requires Valid()
      modifies this
      ensures Valid() && bits == Disable(old(bits), BackFaceCulled)
    {
      DisableKeepsOthers(bits, BackFaceCulled, Solid);
      DisableKeepsOthers(bits, BackFaceCulled, Textured);
      bits := Disable(bits, BackFaceCulled);
    }

    method ToggleWireframe()
      requires Valid()
      modifies this
      ensures Valid() && bits == Toggle(old(bits), Wireframe)
    {
      ToggleKeepsOthers(bits, Wireframe, Solid);
      ToggleKeepsOthers(bits, Wireframe, Textured);
      bits := Toggle(bits, Wireframe);
    }

    method ToggleVertexPoint()
      requires Valid()
      modifies this
      ensures Valid() && bits == Toggle(old(bits), VertexPoint)
    {
      ToggleKeepsOthers(bits, VertexPoint, Solid);
      ToggleKeepsOthers(bits, VertexPoint, Textured);
      bits := Toggle(bits, VertexPoint);
    }

    /** Flips solid fill and always deselects textured fill. */
    method ToggleSolid()
      modifies this
      ensures Valid() && bits == Disable(Toggle(old(bits), Solid), Textured)
      ensures (Has(bits, Solid) <==> !Has(old(bits), Solid)) && !Has(bits, Textured)
    {
      bits := Toggle(bits, Solid);
      DisableKeepsOthers(bits, Textured, Solid);
      DisableTextured();
    }

    /** Flips textured fill and always deselects solid fill. */
    method ToggleTextured()
      modifies this
      ensures Valid() && bits == Disable(Toggle(old(bits), Textured), Solid)
      ensures (Has(bits, Textured) <==> !Has(old(bits), Textured)) && !Has(bits, Solid)
    {
      bits := Toggle(bits, Textured);
      DisableKeepsOthers(bits, Solid, Textured);
      DisableSolid();
    }

    method ToggleBackfaceCulling()
      requires Valid()
      modifies this
      ensures Valid() && bits == Toggle(old(bits), BackFaceCulled)
    {
      ToggleKeepsOthers(bits, BackFaceCulled, Solid);
      ToggleKeepsOthers(bits, BackFaceCulled, Textured);
      bits := Toggle(bits, BackFaceCulled);
    }

    /** The `is_*_enabled` queries. */
    method IsEnabled(f: Flag) returns (b: bool)
      ensures b <==> Has(bits, f)
    {
      b := Has(bits, f);
    }
  }
}
