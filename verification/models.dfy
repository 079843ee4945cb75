/** The persisted review row (table `reviews`). */
module Models {

  /** A naive UTC `datetime`, as a point on a totally ordered time line. */
  type Timestamp = int

  /** One stored review. `id` and `createdAt` are assigned by the store on
      insert; every text column is non-null. */
  datatype Review = Review(
    id: int,
    rating: int,
    review: string,
    aiResponse: string,
    aiSummary: string,
    aiRecommendedActions: string,
    createdAt: Timestamp)

  /** The primary key is unique across the table. */
  predicate UniqueIds(store: seq<Review>) {
    forall i, j :: 0 <= i < j < |store| ==> store[i].id != store[j].id
  }

  /** The id is not yet used by any stored row. */
  predicate FreshId(store: seq<Review>, id: int) {
    forall i :: 0 <= i < |store| ==> store[i].id != id
  }
}
