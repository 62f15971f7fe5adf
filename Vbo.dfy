/** The bookkeeping of a vertex buffer object (`ofVbo`): which attribute
    buffers are in use, their usage hints and buffer ids, and whether the
    object counts as allocated. The buffer id that `glGenBuffers` hands out
    is a parameter; the uploads and draw calls themselves are left out, and
    the data pointers are reduced to whether they are null. */
module Vbo {
  import opened Util

  /** The attribute buffers `set*Data` and `clear` manage. */
  datatype Attribute = Verts | Colors | Normals | TexCoords | Indices

  /** The place of an attribute in the order `bind` enables them. */
  function Rank(attr: Attribute): nat
  {
    match attr
    case Verts => 0
    case Colors => 1
    case Normals => 2
    case TexCoords => 3
    case Indices => 4
  }

  class Vbo {
    var bUsingVerts: bool
    var bUsingTexCoords: bool
    var bUsingColors: bool
    var bUsingNormals: bool
    var bUsingIndices: bool
    var bAllocated: bool
    var vertUsage: int
    var colorUsage: int
    var normUsage: int
    var texUsage: int
    var vertId: int
    var colorId: int
    var normalId: int
    var texCoordId: int
    var indexId: int

    /** Vertices are only ever in use on an allocated object: the vertex
        setter sets both flags together and `clear` never resets
        `bAllocated`. */
    predicate Valid()
      reads this
    {
      bUsingVerts ==> bAllocated
    }

    /** Whether an attribute's buffer is in use. */
    function Using(attr: Attribute): bool
      reads this
    {
      match attr
      case Verts => bUsingVerts
      case Colors => bUsingColors
      case Normals => bUsingNormals
      case TexCoords => bUsingTexCoords
      case Indices => bUsingIndices
    }

    /** The constructor: nothing in use, nothing allocated, every usage -1.
        The ids are not set. */
    constructor ()
      ensures Valid()
      ensures forall attr :: !Using(attr)
      ensures !bAllocated
      ensures vertUsage == -1 && colorUsage == -1 && normUsage == -1 && texUsage == -1
    {
      bUsingVerts := false;
      bUsingTexCoords := false;
      bUsingColors := false;
      bUsingNormals := false;
      bUsingIndices := false;
      vertUsage := -1;
      colorUsage := -1;
      normUsage := -1;
      texUsage := -1;
      bAllocated := false;
    }

    /** `setVertexData(verts, total, usage)`: a null pointer changes
        nothing. Otherwise the usage is stored, and the first call marks
        the object allocated and takes the fresh id; later calls keep the
        id they had. */
    method SetVertexData(isNull: bool, usage: int, freshId: int)
      requires Valid()
      modifies this`vertUsage, this`bAllocated, this`bUsingVerts, this`vertId
      ensures Valid()
      ensures isNull ==> vertUsage == old(vertUsage) && bAllocated == old(bAllocated) && bUsingVerts == old(bUsingVerts) && vertId == old(vertId)
      ensures !isNull ==> vertUsage == usage && bUsingVerts && bAllocated
      ensures !isNull ==> vertId == if old(bUsingVerts) then old(vertId) else freshId
    {
      if isNull {
        return;
      }
      vertUsage := usage;
      if !bUsingVerts {
        bAllocated := true;
        bUsingVerts := true;
        vertId := freshId;
      }
    }

    /** `setColorData(colors, total, usage)`: like the vertex setter, but
        it never touches `bAllocated`. */
    method SetColorData(isNull: bool, usage: int, freshId: int)
      requires Valid()
      modifies this`colorUsage, this`bUsingColors, this`colorId
      ensures Valid()
      ensures isNull ==> colorUsage == old(colorUsage) && bUsingColors == old(bUsingColors) && colorId == old(colorId)
      ensures !isNull ==> colorUsage == usage && bUsingColors
      ensures !isNull ==> colorId == if old(bUsingColors) then old(colorId) else freshId
    {
      if isNull {
        return;
      }
      colorUsage := usage;
      if !bUsingColors {
        bUsingColors := true;
        colorId := freshId;
      }
    }

    /** `setNormalData(normals, total, usage)`. */
    method SetNormalData(isNull: bool, usage: int, freshId: int)
      requires Valid()
      modifies this`normUsage, this`bUsingNormals, this`normalId
      ensures Valid()
      ensures isNull ==> normUsage == old(normUsage) && bUsingNormals == old(bUsingNormals) && normalId == old(normalId)
      ensures !isNull ==> normUsage == usage && bUsingNormals
      ensures !isNull ==> normalId == if old(bUsingNormals) then old(normalId) else freshId
    {
      if isNull {
        return;
      }
      normUsage := usage;
      if !bUsingNormals {
        bUsingNormals := true;
        normalId := freshId;
      }
    }

    /** `setTexCoordData(texCoords, total, usage)`. */
    method SetTexCoordData(isNull: bool, usage: int, freshId: int)
      requires Valid()
      modifies this`texUsage, this`bUsingTexCoords, this`texCoordId
      ensures Valid()
      ensures isNull ==> texUsage == old(texUsage) && bUsingTexCoords == old(bUsingTexCoords) && texCoordId == old(texCoordId)
      ensures !isNull ==> texUsage == usage && bUsingTexCoords
      ensures !isNull ==> texCoordId == if old(bUsingTexCoords) then old(texCoordId) else freshId
    {
      if isNull {
        return;
      }
      texUsage := usage;
      if !bUsingTexCoords {
        bUsingTexCoords := true;
        texCoordId := freshId;
      }
    }

    /** `setIndexData(indices, total, usage)`: no usage is stored for the
        indices; the usage only goes to the upload. */
    method SetIndexData(isNull: bool, usage: int, freshId: int)
      requires Valid()
      modifies this`bUsingIndices, this`indexId
      ensures Valid()
      ensures isNull ==> bUsingIndices == old(bUsingIndices) && indexId == old(indexId)
      ensures !isNull ==> bUsingIndices
      ensures !isNull ==> indexId == if old(bUsingIndices) then old(indexId) else freshId
    {
      if isNull {
        return;
      }
      if !bUsingIndices {
        bUsingIndices := true;
        indexId := freshId;
      }
    }

    /** `getIsAllocated`. */
    function GetIsAllocated(): bool
      reads this
    {
      bAllocated
    }

    /** `bind` enables exactly the attributes in use: the list of client
        states it turns on, in the order the source does. */
    method Bind() returns (enabled: seq<Attribute>)
      ensures forall attr :: attr in enabled <==> attr != Indices && Using(attr)
      ensures forall i, j :: 0 <= i < j < |enabled| ==> Rank(enabled[i]) < Rank(enabled[j])
      ensures |enabled| <= 4
    {
      enabled := [];
      if bUsingVerts {
        enabled := enabled + [Verts];
      }
      if bUsingColors {
        enabled := enabled + [Colors];
      }
      if bUsingNormals {
        enabled := enabled + [Normals];
      }
      if bUsingTexCoords {
        enabled := enabled + [TexCoords];
      }
    }

    /** `draw(drawMode, first, total)`: a draw is issued only on an
        allocated object, with the attributes in use bound. */
    method Draw(drawMode: int, first: int, total: int) returns (drew: bool, bound: seq<Attribute>)
      ensures drew <==> bAllocated
      ensures !drew ==> bound == []
      ensures drew ==> forall attr :: attr in bound <==> attr != Indices && Using(attr)
      ensures forall i, j :: 0 <= i < j < |bound| ==> Rank(bound[i]) < Rank(bound[j])
    {
      drew := false;
      bound := [];
      if bAllocated {
        bound := Bind();
        drew := true;
      }
    }

    /** `drawElements(drawMode, amt)`: likewise guarded by `bAllocated`;
        the index buffer bound is `indexId`. */
    method DrawElements(drawMode: int, amt: int) returns (drewWith: Option<int>)
      ensures drewWith.Some? <==> bAllocated
      ensures drewWith.Some? ==> drewWith.value == indexId
    {
      drewWith := None;
      if bAllocated {
        var _ := Bind();
        drewWith := Some(indexId);
      }
    }

    /** `clear`: the vertex, normal, colour and texture-coordinate flags
        are reset (their buffers deleted first if in use) and all four ids
        become 0. `bAllocated`, the index flag and `indexId` stay. */
    method Clear()
      requires Valid()
      modifies this`bUsingVerts, this`bUsingNormals, this`bUsingColors, this`bUsingTexCoords
      modifies this`vertId, this`normalId, this`texCoordId, this`colorId
      ensures Valid()
      ensures !bUsingVerts && !bUsingNormals && !bUsingColors && !bUsingTexCoords
      ensures vertId == 0 && normalId == 0 && texCoordId == 0 && colorId == 0
    {
      if bUsingVerts {
        bUsingVerts := false;
      }
      if bUsingNormals {
        bUsingNormals := false;
      }
      if bUsingColors {
        bUsingColors := false;
      }
      if bUsingTexCoords {
        bUsingTexCoords := false;
      }
      vertId := 0;
      normalId := 0;
      texCoordId := 0;
      colorId := 0;
    }
  }
}
