/** Log sequence numbers and the small types every component shares. */
module Lsns {

  const U32_SIZE: int := 0x1_0000_0000

  type u32 = n: nat | n < 0x1_0000_0000

  type FileNum = u32

  datatype Option<+T> = None | Some(value: T)

  /** A log position: file number in the upper half, byte offset in the lower half of a u64. */
  datatype Lsn = Lsn(file: FileNum, offset: u32) {
    function AsU64(): nat {
      file * U32_SIZE + offset
    }

    predicate Before(that: Lsn) {
      file < that.file || (file == that.file && offset < that.offset)
    }
  }

  /** The sentinel held by a slot whose record was never logged. */
  const NULL_LSN := Lsn(0xFFFF_FFFF, 0xFFFF_FFFF)

  /** The order the source takes on raw u64 values is file first, then offset. */
  lemma U64OrderIsFileThenOffset(a: Lsn, b: Lsn)
    ensures a.AsU64() < b.AsU64() <==> a.Before(b)
    ensures a.AsU64() == b.AsU64() <==> a == b
  {
    if a.file < b.file {
      assert a.file * U32_SIZE + U32_SIZE <= b.file * U32_SIZE;
    } else if b.file < a.file {
      assert b.file * U32_SIZE + U32_SIZE <= a.file * U32_SIZE;
    }
  }

  /** A log once file `f` is gone. */
  function WithoutFile<R>(log: map<Lsn, R>, f: FileNum): map<Lsn, R> {
    map l | l in log && l.file != f :: log[l]
  }

  type byte = n: nat | n < 256

  type Bytes = seq<byte>

  /** Records are addressed by database and key bytes. */
  datatype Key = Key(db: int, bytes: Bytes)

  /** What the cleaner remembers of an LN it met in a log file. */
  datatype LnInfo = LnInfo(lsn: Lsn, key: Key, logSize: int, deleted: bool, expiration: nat)
}
