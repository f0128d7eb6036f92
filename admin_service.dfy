/** The admin dashboard's statistics service: the five figures of the
    repository, or one fixed 500 whatever went wrong while reading them. */
module AdminService {
  import opened Wrappers
  import opened Tables
  import opened AppErrors
  import ResponseDto
  import AdminRepository

  const StatsError := Raise("Failed to load admin stats", 500, "ADMIN_STATS_ERROR")

  /** getAdminStats: the counts and rankings of the tables. `storageFault`
      stands for any exception thrown by one of the five queries or by the
      DTO parse; the catch replaces it by ADMIN_STATS_ERROR, so no cause
      reaches the caller. */
  function GetAdminStats(t: Tables, storageFault: bool): (r: Result<ResponseDto.AdminStats, Failure>)
    ensures r.Err? <==> storageFault
    ensures r.Err? ==> r.error == StatsError && r.error.error.status == 500
    ensures r.Ok? ==>
      && r.value.usersCount == |t.users|
      && r.value.reviewsCount == |t.reviews|
      && r.value.restaurantsCount == |t.restaurants|
      && r.value.topRated == AdminRepository.GetTopRated(t)
      && r.value.mostReviewed == AdminRepository.GetMostReviewed(t)
  {
    if storageFault then Err(StatsError) else Ok(AdminRepository.GetStats(t))
  }

  /** The two rankings hold the same number of entries: three, or every
      restaurant when there are fewer; and every entry names a restaurant
      that the count includes. */
  lemma RankingsCoverTheCount(t: Tables)
    ensures var s := GetAdminStats(t, false).value;
      (&& |s.topRated| == |s.mostReviewed|
       && |s.topRated| <= AdminRepository.TopCount
       && |s.topRated| <= s.restaurantsCount
       && (s.restaurantsCount >= AdminRepository.TopCount ==> |s.topRated| == AdminRepository.TopCount)
       && (forall x :: x in s.topRated ==> exists row :: row in t.restaurants && row.id == x.id)
       && (forall x :: x in s.mostReviewed ==> exists row :: row in t.restaurants && row.id == x.id))
  {
    var s := GetAdminStats(t, false).value;
    forall x | x in s.mostReviewed
      ensures exists row :: row in t.restaurants && row.id == x.id
    {
      var row :| row in t.restaurants && x == AdminRepository.MostReviewedOf(t.reviews, row);
      assert row.id == x.id;
    }
  }
}
