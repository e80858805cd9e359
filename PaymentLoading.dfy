/** Building the single payment list both reports work on: the records of
    every payments file, appended in the order the files are given
    (XmlProcessor.cs, the loops over paymentFiles). */
module PaymentLoading {
  import opened Records

  /** The payment files' records one after another, in argument order. */
  function Concat(files: seq<seq<Payment>>): seq<Payment> {
    if files == [] then []
    else Concat(files[..|files| - 1]) + files[|files| - 1]
  }

  /** The number of records over all files. */
  function TotalCount(files: seq<seq<Payment>>): nat {
    if files == [] then 0
    else TotalCount(files[..|files| - 1]) + |files[|files| - 1]|
  }

  /** The records of all files together, each record as many times as it
      occurs over all files. */
  function AllRecords(files: seq<seq<Payment>>): multiset<Payment> {
    if files == [] then multiset{}
    else AllRecords(files[..|files| - 1]) + multiset(files[|files| - 1])
  }

  lemma {:induction false} ConcatLength(files: seq<seq<Payment>>)
    ensures |Concat(files)| == TotalCount(files)
  {
    if files != [] {
      ConcatLength(files[..|files| - 1]);
    }
  }

  /** Duplicates are kept: no record is dropped or merged. */
  lemma {:induction false} ConcatKeepsDuplicates(files: seq<seq<Payment>>)
    ensures multiset(Concat(files)) == AllRecords(files)
  {
    if files != [] {
      ConcatKeepsDuplicates(files[..|files| - 1]);
    }
  }

  /** Record j of file i sits after all records of the files before it. */
  lemma {:induction false} ConcatAt(files: seq<seq<Payment>>, i: nat, j: nat)
    requires i < |files| && j < |files[i]|
    ensures TotalCount(files[..i]) + j < |Concat(files)|
    ensures Concat(files)[TotalCount(files[..i]) + j] == files[i][j]
  {
    var n := |files|;
    var init := files[..n - 1];
    ConcatLength(files);
    ConcatLength(init);
    if i < n - 1 {
      ConcatAt(init, i, j);
      assert init[..i] == files[..i];
    } else {
      assert files[..i] == init;
    }
  }

  /** allPayments: an empty list to which each file's records are added in
      turn. */
  method LoadPayments(files: seq<seq<Payment>>) returns (all: seq<Payment>)
    ensures all == Concat(files)
  {
    all := [];
    for i := 0 to |files|
      invariant all == Concat(files[..i])
    {
      assert files[..i + 1][..i] == files[..i];
      all := all + files[i];
    }
    assert files[..|files|] == files;
  }
}
