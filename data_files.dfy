/**
 * The dataset check of data_loader.py, `download_dataset`: the nine CSV files
 * the testers load are looked up in the data directory, split into those found
 * and those missing, and the check passes only when none is missing. Whether a
 * file exists is an input (`present`); the directory creation and the printed
 * instructions are not modelled.
 */
module DataFiles {
  import opened Seqs

  /** `csv_files`: the files of the Brazilian e-commerce dataset, in the order they are checked. */
  const RequiredFiles: seq<string> := [
    "olist_customers_dataset.csv",
    "olist_orders_dataset.csv",
    "olist_order_items_dataset.csv",
    "olist_order_payments_dataset.csv",
    "olist_order_reviews_dataset.csv",
    "olist_products_dataset.csv",
    "olist_sellers_dataset.csv",
    "product_category_name_translation.csv",
    "olist_geolocation_dataset.csv"
  ]

  /**
   * The loop over `csv_files`: a file whose path exists is appended to
   * `existing_files`, any other to `missing_files`.
   */
  method PartitionFiles(files: seq<string>, present: string -> bool)
    returns (existing: seq<string>, missing: seq<string>)
    ensures existing == Filter(files, present)
    ensures missing == Reject(files, present)
  {
    existing, missing := [], [];
    var k := 0;
    while k < |files|
      invariant 0 <= k <= |files|
      invariant existing == Filter(files[..k], present)
      invariant missing == Reject(files[..k], present)
    {
      var file := files[k];
      FilterStep(files, k, present);
      RejectStep(files, k, present);
      if present(file) {
        existing := existing + [file];
      } else {
        missing := missing + [file];
      }
      k := k + 1;
    }
    assert files[..k] == files;
  }

  /** `download_dataset`: partition the required files; the result is `True` only when none is missing. */
  method DownloadDataset(present: string -> bool) returns (ok: bool, existing: seq<string>, missing: seq<string>)
    ensures existing == Filter(RequiredFiles, present) && missing == Reject(RequiredFiles, present)
    ensures ok <==> missing == []
    ensures ok <==> forall k :: 0 <= k < |RequiredFiles| ==> present(RequiredFiles[k])
  {
    existing, missing := PartitionFiles(RequiredFiles, present);
    RejectEmptyIff(RequiredFiles, present);
    if missing != [] {
      return false, existing, missing;
    }
    return true, existing, missing;
  }

  /**
   * Found and missing files partition the list: every file lands in exactly
   * one of them, both keep the list's order, and a file is found exactly
   * when it exists.
   */
  lemma PartitionIsExact(files: seq<string>, present: string -> bool, f: string)
    ensures multiset(Filter(files, present)) + multiset(Reject(files, present)) == multiset(files)
    ensures f in Filter(files, present) <==> f in files && present(f)
    ensures f in Reject(files, present) <==> f in files && !present(f)
  {
    FilterRejectPartition(files, present);
    FilterMembership(files, present, f);
    FilterMembership(files, (x: string) => !present(x), f);
    RejectIsFilterNot(files, present);
  }

  /** The found and the missing files keep the order of the list: they split over its halves. */
  lemma PartitionKeepsOrder(a: seq<string>, b: seq<string>, present: string -> bool)
    ensures Filter(a + b, present) == Filter(a, present) + Filter(b, present)
    ensures Reject(a + b, present) == Reject(a, present) + Reject(b, present)
  {
    FilterConcat(a, b, present);
    RejectConcat(a, b, present);
  }

  /** The nine required files have distinct names, so each is checked once. */
  lemma RequiredFilesDistinct()
    ensures |RequiredFiles| == 9
    ensures forall i, j :: 0 <= i < j < |RequiredFiles| ==> RequiredFiles[i] != RequiredFiles[j]
  {
  }
}
