/** One cache line and the copies the controller makes of it.

    The C++ array, MSHR map and write-back map hold lines by value and every copy is deep, so a
    line is a value here too; what the in-place methods leave in the target is the result. */
module CacheLine {
  import opened Wrappers

  type Byte = bv8

  /** What copyBits copies besides `valid`. */
  datatype Bits = Bits(insertCycle: nat, accessCycle: nat, accessCounter: nat, state: int, owner: int)

  datatype Line = Line(valid: bool, bits: Bits, tag: int, data: Option<seq<Byte>>)

  /** What a block holds, whatever register file or way it currently sits in. */
  datatype Content = Content(bits: Bits, data: Option<seq<Byte>>)

  function Blank(): Line { Line(false, Bits(0, 0, 0, 0, -1), -1, None) }

  function View(line: Line): Content { Content(line.bits, line.data) }

  /** Not the tag: the slot a line is copied into keeps its own. */
  function CopyBits(target: Line, source: Line): Line {
    target.(valid := source.valid, bits := source.bits)
  }

  /** A source without bytes leaves the target's bytes standing. */
  function CopyLine(target: Line, source: Line): Line {
    var copied := CopyBits(target, source);
    if source.data.Some? then copied.(data := source.data) else copied
  }

  /** What modifyData's memcpy of `bytes` from `offset` on leaves in a line, `offset` having passed its
      test: bytes past the end go elsewhere. */
  function Overwrite(target: seq<Byte>, offset: nat, bytes: seq<Byte>): (r: seq<Byte>)
    requires offset <= |target|
    ensures |r| == |target|
    ensures forall i :: 0 <= i < |target| ==>
      r[i] == if offset <= i < offset + |bytes| then bytes[i - offset] else target[i]
  {
    if offset + |bytes| <= |target| then target[..offset] + bytes + target[offset + |bytes|..]
    else target[..offset] + bytes[..|target| - offset]
  }

  /** The map with new bytes for one block. */
  function WithData(contents: map<nat, Content>, b: nat, data: seq<Byte>): map<nat, Content> {
    if b in contents then contents[b := contents[b].(data := Some(data))] else contents
  }

  /** The map with some bytes of one block overwritten. */
  function PatchData(contents: map<nat, Content>, b: nat, offset: nat, bytes: seq<Byte>): map<nat, Content> {
    if b in contents && contents[b].data.Some? && offset <= |contents[b].data.value|
    then WithData(contents, b, Overwrite(contents[b].data.value, offset, bytes))
    else contents
  }
}
