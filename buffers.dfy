/** The GPU buffer wrappers: a buffer of fixed size that is always uploaded
    whole, a constant buffer whose size is a multiple of one 128-bit vector,
    and a typed constant buffer that keeps a CPU-side copy to upload. */
module Buffers {
  import opened Settings

  /** A `size_t` byte count, as the bits the alignment test inspects. */
  type SizeT = bv64

  /** A GPU buffer of `size` bytes; `contents` is what the GPU holds. */
  class Buffer {
    const size: nat
    var contents: seq<Byte>

    ghost predicate Valid()
      reads this
    {
      |contents| == size
    }

    /** Wraps a freshly created buffer of `size` bytes; its initial contents
        are whatever the creator supplied. */
    constructor (size: nat, initial: seq<Byte>)
      requires |initial| == size
      ensures Valid()
      ensures this.size == size && contents == initial
    {
      this.size := size;
      contents := initial;
    }

    /** The whole buffer is always uploaded: the caller must pass exactly
        `size` bytes, which are copied over the previous contents. */
    method Upload(data: seq<Byte>, numBytes: nat)
      requires Valid()
      requires numBytes == size && |data| >= numBytes
      modifies this
      ensures Valid()
      ensures contents == data[..size]
    {
      contents := data[..numBytes];
    }

    function GetSize(): (n: nat)
      requires Valid()
      reads this
      ensures n == |contents|
    {
      size
    }
  }

  /** The alignment test on a byte count: the low four bits are clear. */
  function IsVectorMultiple(numBytes: SizeT): (r: bool)
  {
    numBytes & 15 == 0
  }

  /** Clearing the low four bits is exactly divisibility by 16, the size of a
      128-bit shader-constant vector. */
  lemma VectorMultipleIsDivisibleBy16(numBytes: SizeT)
    ensures IsVectorMultiple(numBytes) <==> numBytes % 16 == 0
  {
  }

  /** A constant buffer: a named buffer whose size is a multiple of 16 bytes.
      `sizeBits` is the byte count the constructor was given. */
  class ConstantBufferGPU {
    const buffer: Buffer
    const name: string
    const sizeBits: SizeT

    ghost predicate Valid()
      reads this, buffer
    {
      buffer.Valid() && buffer.size == sizeBits as int && IsVectorMultiple(sizeBits)
    }

    constructor (buffer: Buffer, numBytes: SizeT, name: string)
      requires buffer.Valid() && buffer.size == numBytes as int
      requires IsVectorMultiple(numBytes)
      ensures Valid()
      ensures this.buffer == buffer && this.name == name
    {
      this.buffer := buffer;
      this.name := name;
      sizeBits := numBytes;
    }

    method Upload(data: seq<Byte>, numBytes: nat)
      requires Valid()
      requires numBytes == buffer.size && |data| >= numBytes
      modifies buffer
      ensures Valid()
      ensures buffer.contents == data[..buffer.size]
    {
      buffer.Upload(data, numBytes);
    }
  }

  function Zeros(n: nat): (z: seq<Byte>)
    ensures |z| == n && forall i :: 0 <= i < n ==> z[i] == 0
  {
    seq(n, _ => 0)
  }

  /** A typed constant buffer: `local` is the zero-initialised CPU copy of the
      structure (its `sizeof` bytes), which clients edit and then upload. */
  class ConstantBuffer {
    const gpu: ConstantBufferGPU
    var local: seq<Byte>

    ghost predicate Valid()
      reads this, gpu, gpu.buffer
    {
      gpu.Valid() && |local| == gpu.buffer.size
    }

    constructor (gpu: ConstantBufferGPU)
      requires gpu.Valid()
      ensures Valid()
      ensures this.gpu == gpu
      ensures |local| == gpu.buffer.size
      ensures forall i :: 0 <= i < |local| ==> local[i] == 0
    {
      this.gpu := gpu;
      local := Zeros(|gpu.buffer.contents|);
    }

    /** Sends the whole local copy to the GPU. */
    method Upload()
      requires Valid()
      modifies gpu.buffer
      ensures Valid()
      ensures gpu.buffer.contents == local
    {
      gpu.Upload(local, |local|);
      assert local[..|local|] == local;
    }
  }
}
