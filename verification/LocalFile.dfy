/** The pre-allocated destination file that download tasks write into. */
module LocalFile {
  import opened Basics

  /** `after` is `before` with only a part of `data` written. */
  ghost predicate CutShort(before: Bytes, after: Bytes, at: nat, data: Bytes) {
    exists k :: 0 <= k <= |data| && after == WriteAt(before, at, data[..k])
  }

  class DestFile {
    var content: Bytes

    constructor (size: nat)
      ensures content == Zeros(size)
    {
      content := Zeros(size);
    }

    /** `seek` and `write_all`: all of `data`, or only a part of it when the disk fails. */
    method WriteAll(at: nat, data: Bytes) returns (ok: bool)
      modifies this
      ensures ok ==> content == WriteAt(old(content), at, data)
      ensures !ok ==> CutShort(old(content), content, at, data)
    {
      ok := *;
      if ok {
        content := WriteAt(content, at, data);
      } else {
        var k: nat :| k <= |data|;
        content := WriteAt(content, at, data[..k]);
      }
    }
  }
}
