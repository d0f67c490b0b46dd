/*
 * The Google My Business settings record (the `wp_listings_google_my_business_options`
 * option) and the way it is read: the stored record shallow-merged over the
 * defaults, so a stored top-level key replaces its whole nested default.
 */
module GmbOptions {
  import opened Wrappers
  import opened PhpValues

  /** One saved business location, keyed elsewhere by its Google resource name.
      Entries created from the preferences form carry only the share flag. */
  datatype Location = Location(locationName: Option<string>, streetAddress: Option<string>, share: bool)

  /** One key/value pair of the ordered `locations` array. */
  datatype LocEntry = LocEntry(key: string, loc: Location)

  /** The `locations` array, in PHP insertion order. */
  type Locations = seq<LocEntry>

  datatype PostingSettings = PostingSettings(
    frequency: string,
    emptyScheduleAutoPost: bool,
    scheduledPosts: seq<PostId>,
    excludedPosts: seq<PostId>)

  datatype PostingDefaults = PostingDefaults(
    link: string,
    linkOverride: bool,
    summary: string,
    summaryOverride: bool,
    photo: string,
    photoOverride: bool)

  datatype PostingLogs = PostingLogs(
    statusMessage: string,
    usedPostIds: seq<PostId>,
    lastPostTimestamp: string)

  /** The settings record as every reader sees it, defaults filled in. */
  datatype Settings = Settings(
    accessToken: string,
    refreshToken: string,
    locations: Locations,
    posting: PostingSettings,
    defaults: PostingDefaults,
    logs: PostingLogs)

  /** The record as it sits in the options table: each top-level key may be
      missing. */
  datatype Stored = Stored(
    accessToken: Option<string>,
    refreshToken: Option<string>,
    locations: Option<Locations>,
    posting: Option<PostingSettings>,
    defaults: Option<PostingDefaults>,
    logs: Option<PostingLogs>)

  const NothingStored := Stored(None, None, None, None, None, None)

  const DefaultPosting := PostingSettings("weekly", false, [], [])

  const DefaultPostingDefaults := PostingDefaults("", false, "", false, "", false)

  const DefaultLogs := PostingLogs("", [], "")

  const DefaultSettings := Settings("", "", [], DefaultPosting, DefaultPostingDefaults, DefaultLogs)

  /** `array_merge( $defaults, $options )`: every top-level key that is stored
      wins as a whole, every missing one takes its default. */
  function WithDefaults(st: Stored): (s: Settings)
    ensures st.accessToken.Some? ==> s.accessToken == st.accessToken.value
    ensures st.accessToken.None? ==> s.accessToken == ""
    ensures st.refreshToken.Some? ==> s.refreshToken == st.refreshToken.value
    ensures st.refreshToken.None? ==> s.refreshToken == ""
    ensures st.locations.Some? ==> s.locations == st.locations.value
    ensures st.locations.None? ==> s.locations == []
    ensures st.posting.Some? ==> s.posting == st.posting.value
    ensures st.posting.None? ==> s.posting.frequency == "weekly" && !s.posting.emptyScheduleAutoPost
                                 && s.posting.scheduledPosts == [] && s.posting.excludedPosts == []
    ensures st.defaults.Some? ==> s.defaults == st.defaults.value
    ensures st.defaults.None? ==> s.defaults.link == s.defaults.summary == s.defaults.photo == ""
                                  && !s.defaults.linkOverride && !s.defaults.summaryOverride
                                  && !s.defaults.photoOverride
    ensures st.logs.Some? ==> s.logs == st.logs.value
    ensures st.logs.None? ==> s.logs.statusMessage == "" && s.logs.usedPostIds == []
                              && s.logs.lastPostTimestamp == ""
  {
    Settings(
      st.accessToken.GetOr(DefaultSettings.accessToken),
      st.refreshToken.GetOr(DefaultSettings.refreshToken),
      st.locations.GetOr(DefaultSettings.locations),
      st.posting.GetOr(DefaultSettings.posting),
      st.defaults.GetOr(DefaultSettings.defaults),
      st.logs.GetOr(DefaultSettings.logs))
  }

  /** `update_option` with a full record: every top-level key is written. */
  function Store(s: Settings): (st: Stored)
    ensures st.accessToken.Some? && st.refreshToken.Some? && st.locations.Some?
    ensures st.posting.Some? && st.defaults.Some? && st.logs.Some?
  {
    Stored(Some(s.accessToken), Some(s.refreshToken), Some(s.locations),
           Some(s.posting), Some(s.defaults), Some(s.logs))
  }

  /** Writing a record and reading it back yields the same record, which is
      why the model carries the merged record as the state. */
  lemma ReadAfterWrite(s: Settings)
    ensures WithDefaults(Store(s)) == s
  {
  }

  /** Reading is idempotent: writing back what was read changes nothing. */
  lemma ReadWriteReadIsRead(st: Stored)
    ensures WithDefaults(Store(WithDefaults(st))) == WithDefaults(st)
  {
  }

  /** The merge is shallow: a stored `posting_settings` that leaves the
      auto-post flag off and the lists empty still replaces the default with
      its own frequency, even one the scheduler does not know. */
  lemma MergeIsShallow(p: PostingSettings)
    ensures WithDefaults(NothingStored.(posting := Some(p))).posting == p
    ensures WithDefaults(NothingStored.(posting := Some(p))).logs == DefaultLogs
    ensures WithDefaults(NothingStored) == DefaultSettings
  {
  }
}
