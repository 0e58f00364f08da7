/**
 An incremental hash function, fed piece by piece.  The compression function is
 a parameter: nothing here depends on which one it is.
 */
module Hashing {
  import opened FileTree

  type HashFunction = seq<byte> -> seq<byte>

  const READ_BUFFER := 8192

  /** Two different messages with the same digest. */
  ghost predicate Collides(hash: HashFunction, a: seq<byte>, b: seq<byte>) {
    a != b && hash(a) == hash(b)
  }

  class Hasher {
    const hash: HashFunction
    var absorbed: seq<byte>

    constructor (hash: HashFunction)
      ensures this.hash == hash && absorbed == []
    {
      this.hash := hash;
      absorbed := [];
    }

    method Update(data: seq<byte>)
      modifies this`absorbed
      ensures absorbed == old(absorbed) + data
    {
      absorbed := absorbed + data;
    }

    method Finalize() returns (digest: seq<byte>)
      ensures digest == hash(absorbed)
    {
      digest := hash(absorbed);
    }

    /** Reads a file through a fixed buffer; a read may return fewer bytes than asked for. */
    method UpdateFromFile(content: seq<byte>)
      modifies this`absorbed
      ensures absorbed == old(absorbed) + content
    {
      var pos := 0;
      while pos < |content|
        invariant 0 <= pos <= |content|
        invariant absorbed == old(absorbed) + content[..pos]
      {
        var read :| 0 < read <= READ_BUFFER && read <= |content| - pos;
        Update(content[pos..pos + read]);
        assert content[..pos] + content[pos..pos + read] == content[..pos + read];
        pos := pos + read;
      }
    }
  }
}
