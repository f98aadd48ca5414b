/** Part arithmetic of a resumable archive upload. */
module Multipart {
  import opened Basics

  const PART_BYTES := 16 * 1024 * 1024
  const MAX_PARTS := 65_536

  datatype Error = Limit | PartNumber

  function PartCount(size: nat): Result<nat, Error>
  {
    if size == 0 then Err(Limit)
    else
      var count := (size + PART_BYTES - 1) / PART_BYTES;
      if count > MAX_PARTS then Err(Limit) else Ok(count)
  }

  function PartSize(size: nat, number: nat): Result<nat, Error>
  {
    var count :- PartCount(size);
    if number >= count then Err(PartNumber)
    else
      assert number * PART_BYTES <= size;
      Ok(Min(PART_BYTES, size - number * PART_BYTES))
  }

  /** Where a part's bytes start and end in the archive. */
  function PartStart(number: nat): nat { number * PART_BYTES }

  predicate InPart(size: nat, number: nat, at: nat)
  {
    PartSize(size, number).Ok? && PartStart(number) <= at < PartStart(number) + PartSize(size, number).value
  }

  /** The parts tile the archive: every byte is in exactly one of them, and no part reaches
      past the end or is empty. */
  lemma PartsTile(size: nat, at: nat)
    requires PartCount(size).Ok?
    ensures at < size <==> InPart(size, at / PART_BYTES, at)
    ensures forall n: nat :: InPart(size, n, at) ==> n == at / PART_BYTES
    ensures forall n: nat :: n < PartCount(size).value <==> PartSize(size, n).Ok? && PartSize(size, n).value > 0
  {
    forall n: nat | InPart(size, n, at) ensures n == at / PART_BYTES {
      Quotient(n, at);
    }
    if at < size {
      var n := at / PART_BYTES;
      Quotient(n, at);
      assert n * PART_BYTES <= at;
      assert n < PartCount(size).value;
    }
  }

  lemma Quotient(n: nat, at: nat)
    ensures n * PART_BYTES <= at < (n + 1) * PART_BYTES <==> n == at / PART_BYTES
  {
  }

  /** All parts but the last are whole, so the next part starts where one ends. */
  lemma PartsMeet(size: nat, number: nat)
    requires PartSize(size, number).Ok?
    ensures PartStart(number) + PartSize(size, number).value ==
            if number + 1 < PartCount(size).value then PartStart(number + 1) else size
  {
  }
}
