# WP Listings: Google My Business posting and single-listing templates, in Dafny

This project models two parts of the WP Listings WordPress plugin.

The first part is the Google My Business integration's posting policy. It covers:

- the settings record and its shallow merge over defaults;
- the bounded used-post log;
- the merge of fetched business locations into the saved ones;
- the preferences form, including the per-location share flags;
- the cron tick that picks a scheduled post, a fresh listing or the defaults;
- field composition with the override switches;
- publishing and classifying Google's answer;
- re-arming the single recurring posting event;
- the exclusion-list edits.

The second part is the single-listing template feature. It covers:

- the template list;
- the meta value the edit screen saves;
- the file WordPress is told to render.

Every step is a pure function over one immutable state: the merged settings record plus the posting event (`GmbPublish.State`). Everything WordPress, Google or the clock answers is a parameter:

- the fetched locations, whether a token is available, Google's response and the current time (`GmbPublish.Remote`);
- whether the scheduled head exists, the recent listing ids and the post `get_post` returns (`GmbCron.TickInput`);
- `strip_tags` and `wp_http_validate_url`, as uninterpreted functions (`GmbPublish.Host`);
- image dimensions and the reported Content-Length (`GmbCompose.Thumbnail`);
- the nonce and capability answers for the template save (`ListingTemplate.SaveRequest`).

Post ids are `IntId | StrId`, because the plugin mixes integers from WordPress with strings from forms. `PhpValues.LooseEq` models PHP 8's `==` between them for integer numeric strings. `wp_schedule_event` is modelled by its two refusals: a missing or non-positive time, and an unregistered recurrence.

Modules, one per file: `Wrappers` and `PhpValues` (php_values.dfy), `GmbOptions`, `GmbLogs`, `GmbLocations`, `GmbSchedule`, `GmbCompose`, `GmbPublish`, `GmbCron`, `GmbPreferences`, `GmbExclusion`, `ListingTemplate`.

Three behaviours a reader might not expect from the code's comments, modelled as the code has them:

- A transport error (`WP_Error`) only logs a message. It does not reschedule, because the retry call sits inside the non-error branch.
- Changing the frequency to weekly, biweekly or monthly when no event is armed arms nothing. The switch passes the missing event's timestamp, and WordPress refuses it.
- Only the first location with sharing on is posted to. Its answer alone decides the outcome.

## Model

| member | source | states |
|---|---|---|
| GmbOptions.WithDefaults | includes/integrations/wpl-google-my-business.php:47-73 | each top-level key that is stored replaces its whole default; each missing key takes the documented default values |
| GmbOptions.ReadAfterWrite | includes/integrations/wpl-google-my-business.php:47-73 | a record written in full and read back is the same record |
| GmbOptions.MergeIsShallow | includes/integrations/wpl-google-my-business.php:47-73 | a stored `posting_settings` replaces the default wholesale; nothing stored reads as the defaults |
| GmbLogs.PushUsed | includes/integrations/wpl-google-my-business.php:92-98 | pushing an int id grows the log by one below fifty and keeps the length at fifty or more; the new id is last; the rest are the newest of the old ids |
| GmbLogs.PushAllKeepsNewestFifty | includes/integrations/wpl-google-my-business.php:92-98 | from a log of at most fifty, any run of pushes leaves exactly the newest fifty of the old log plus the pushed ids |
| GmbLogs.UpdateLogs | includes/integrations/wpl-google-my-business.php:85-108 | a string sets the status or the timestamp; an int is pushed; an array clears the used list; a string id for the used list and an unknown key change nothing; only `posting_logs` ever changes |
| GmbLogs.UpdateLogsKeepsBound | includes/integrations/wpl-google-my-business.php:92-102 | no call lets the used list outgrow fifty ids |
| GmbLogs.StringIdsNeverLogged | includes/integrations/wpl-google-my-business.php:92 | an id that arrives as a string leaves the record unchanged; the same id as an integer is pushed |
| GmbLogs.ErrorLogIsAlwaysEmpty | includes/integrations/wpl-google-my-business.php:992-998 | the error-log helper returns the empty string even when a status message is stored |
| GmbLogs.PopNeverPops | includes/integrations/wpl-google-my-business.php:1006-1016 | the pop helper pops nothing and leaves the record unchanged |
| GmbLocations.Assign | includes/integrations/wpl-google-my-business.php:395-399 | assigning a key replaces its entry in place or appends one; lookups of every other key are unchanged |
| GmbLocations.MergeAll | includes/integrations/wpl-google-my-business.php:393-401 | saved entries stay, unchanged and in place; every added entry has sharing on |
| GmbLocations.MergeAllKeys | includes/integrations/wpl-google-my-business.php:393-401 | after the merge, a key is present if and only if it was saved or fetched |
| GmbLocations.MergeAllKeeps | includes/integrations/wpl-google-my-business.php:394 | a saved key's entry is never overwritten |
| GmbLocations.MergeAllAddsShared | includes/integrations/wpl-google-my-business.php:394-399 | a fetched name not yet saved gets the display name and address of its first occurrence in the fetched list, with sharing on |
| GmbLocations.MergeAllKeepsKeysUnique | includes/integrations/wpl-google-my-business.php:393-401 | the merged array never repeats a key |
| GmbLocations.SavedLocations | includes/integrations/wpl-google-my-business.php:383-405 | an empty fetch returns false and writes nothing; otherwise the result is the merge of every fetched location into the saved ones, which keeps the saved entries as a prefix and contains the first fetched name |
| GmbLocations.MergeIsIdempotent | includes/integrations/wpl-google-my-business.php:383-405 | a second merge with the same fetched list changes nothing |
| GmbLocations.ApplyShareFlags | includes/integrations/wpl-google-my-business.php:227-233 | saved entries keep their keys and places; afterwards a key is present if and only if it was saved or the form has a row for it |
| GmbLocations.ApplyShareFlagsSetsRow | includes/integrations/wpl-google-my-business.php:222-233 | each form row sets its key's flag; the flag is on if and only if the location was saved and the sanitised value is non-empty |
| GmbLocations.ApplyShareFlagsKeepsOthers | includes/integrations/wpl-google-my-business.php:228-232 | locations the form does not mention keep their entries |
| GmbLocations.ShareFlagsNotIdempotent | includes/integrations/wpl-google-my-business.php:228-232 | a row for an unsaved key creates a bare entry with sharing off; resubmitting the same form turns it on |
| GmbLocations.FirstShared | includes/integrations/wpl-google-my-business.php:603-607 | returns the first location in array order with sharing on; returns none if and only if no location shares |
| GmbSchedule.WithPluginSchedules | includes/integrations/wpl-google-my-business.php:754-777 | adds weekly, biweekly and monthly with their lengths, only where absent; existing recurrences are untouched |
| GmbSchedule.FilterOrderAgrees | includes/integrations/wpl-google-my-business.php:754-777 | running the filter on an empty array and merging the core recurrences over it, as WordPress does, gives the same recurrences as adding the plugin's to the core ones |
| GmbSchedule.ScheduleLengths | includes/integrations/wpl-google-my-business.php:756-775 | the registered recurrences and the lengths of weekly, biweekly and monthly in seconds |
| GmbSchedule.UpdateInterval | includes/integrations/wpl-google-my-business.php:722-744 | the same recurrence is a no-op; a form frequency re-arms at the current fire time, or arms nothing without an event; any other value arms weekly one week from now; a valid event stays valid |
| GmbSchedule.ResetNext | includes/integrations/wpl-google-my-business.php:812-826 | a retry arms twelve hours from now; otherwise one period of the frequency from now; always at the saved frequency; an unregistered frequency arms nothing |
| GmbSchedule.ScheduleFirstPost | includes/integrations/wpl-google-my-business.php:707-712 | an armed event is kept; otherwise a weekly event is armed twelve hours out |
| GmbSchedule.RetryComesFirst | includes/integrations/wpl-google-my-business.php:812-826 | for every form frequency, a retry fires before the next regular post would |
| GmbCompose.ImageSizeNeverRead | includes/integrations/wpl-google-my-business.php:521-530 | a thumbnail qualifies exactly when both sides exceed 250 pixels, whatever Content-Length it reports |
| GmbCompose.OversizedImageAccepted | includes/integrations/wpl-google-my-business.php:524-530 | a 9 MB image is accepted, although its reported size is outside the window |
| GmbCompose.PhotoFor | includes/integrations/wpl-google-my-business.php:509-538 | the photo is the default, or a qualifying non-empty thumbnail URL when the override is off |
| GmbCompose.ThumbnailUsedIff | includes/integrations/wpl-google-my-business.php:511-538 | the thumbnail is used if and only if the override is off, it qualifies and its URL is non-empty |
| GmbCompose.ComposeDraft | includes/integrations/wpl-google-my-business.php:505-538 | a set override takes the saved default for its field and a clear one takes the listing's; the photo is the default or a qualifying, non-empty thumbnail URL chosen with the photo override off |
| GmbCompose.ListingUsedWithoutOverrides | includes/integrations/wpl-google-my-business.php:505-538 | with every override off and a qualifying, non-empty thumbnail, the draft is the listing's content, thumbnail and permalink, whatever the saved defaults hold |
| GmbCompose.OverridesIgnoreListing | includes/integrations/wpl-google-my-business.php:505-512 | with all overrides set, the draft is exactly the saved defaults |
| GmbPublish.Publish | includes/integrations/wpl-google-my-business.php:559-672 | anything sent has a non-empty summary of at most 1499 characters and non-empty validated URLs, computed from the inputs |
| GmbPublish.FinalCheckStopsEverything | includes/integrations/wpl-google-my-business.php:561-571 | an empty summary, photo URL or page URL after validation logs only the final-check message; nothing is sent |
| GmbPublish.NoLocationsOrTokenNothingSent | includes/integrations/wpl-google-my-business.php:590-601 | no fetched locations logs "No posting locations available."; no token sends nothing |
| GmbPublish.OnlyFirstSharedLocation | includes/integrations/wpl-google-my-business.php:603-669 | only the first shared location is posted to, and its answer decides the state; with none shared, "No locations selected" is logged |
| GmbPublish.Classify | includes/integrations/wpl-google-my-business.php:620-669 | the status reads "Post Successful" if and only if the answer is a 200; only the logs and the schedule can change, and the schedule never grows; the event moves only on an HTTP error; the schedule and the used log change only on a 200 for a given id |
| GmbPublish.OnSuccess | includes/integrations/wpl-google-my-business.php:624-637 | the status becomes "Post Successful"; with a non-empty id, the first entry strictly equal to it leaves the schedule and the log stays; failing that, an integer id is pushed to the log and the schedule stays, and a string id changes neither; an empty or missing id changes neither; nothing else changes |
| GmbPublish.FailureMessage | includes/integrations/wpl-google-my-business.php:640-665 | every failure message opens with "Oops! Post Unsuccessful - " and ends with the post-id suffix |
| GmbPublish.SuccessPath | includes/integrations/wpl-google-my-business.php:626-637 | on 200: the status becomes "Post Successful" and the event is kept; an unscheduled int id is pushed to the log; a scheduled id leaves the schedule and the log unchanged |
| GmbPublish.ScheduledIntIdNotLogged | includes/integrations/wpl-google-my-business.php:624-633 | a scheduled int id is removed from the schedule, but the stale write loses its log entry |
| GmbPublish.StrictSearchMissesStringTwin | includes/integrations/wpl-google-my-business.php:630 | an int id does not remove its loosely equal string twin from the schedule |
| GmbPublish.FailurePath | includes/integrations/wpl-google-my-business.php:640-665 | a non-200 answer arms a retry and logs the code's message; a transport error only logs; neither touches the schedule or the log |
| GmbPublish.FailureMessages | includes/integrations/wpl-google-my-business.php:644-659 | the exact messages for 400, for 403 with the unverified-location text, and for any other code, with the post-id suffix |
| GmbPublish.InvalidUrlMessageExample | includes/integrations/wpl-google-my-business.php:645 | a 400 answer for listing 12 logs "Oops! Post Unsuccessful - Invalid photo or page URL provided. Post ID: 12" |
| GmbPublish.PublishKeepsLogBound | includes/integrations/wpl-google-my-business.php:559-672 | publishing keeps the used log at most fifty ids long and leaves the exclusion list alone |
| GmbCron.FirstUnused | includes/integrations/wpl-google-my-business.php:468-473 | returns the first recent id not loosely in the used log, every earlier one being used; returns none if and only if all are used |
| GmbCron.SelectCandidate | includes/integrations/wpl-google-my-business.php:452-484 | no recent listings means the defaults without a reset; the first unused listing otherwise; if all are used, a reset and the newest listing, or the defaults when its id is 0 |
| GmbCron.PostFromId | includes/integrations/wpl-google-my-business.php:494-546 | a post `get_post` cannot find is logged and nothing is sent; anything sent carries the composed draft's summary, photo and page URL; the schedule only shrinks and no other posting setting changes |
| GmbCron.PublishDefaults | includes/integrations/wpl-google-my-business.php:438-444 | anything sent carries the saved default summary, photo and link; the used log and the posting settings stay as they were |
| GmbCron.PostWithListingData | includes/integrations/wpl-google-my-business.php:452-484 | no recent listings posts the defaults; otherwise the first listing not in the used log is posted; when all are used the log is cleared and the newest is posted, or the defaults when its id is 0 |
| GmbCron.ScheduledTick | includes/integrations/wpl-google-my-business.php:682-699 | a post is sent only for a schedule head that exists as a post (any status) or with auto-posting on; the schedule never grows and no other posting setting changes |
| GmbCron.TickDispatch | includes/integrations/wpl-google-my-business.php:682-699 | the status is cleared; an existing scheduled head wins; otherwise the listing flow runs when auto-posting is on; otherwise nothing else changes |
| GmbCron.MissingPostLogged | includes/integrations/wpl-google-my-business.php:497-503 | when `get_post` fails, the failure is logged and nothing is sent |
| GmbCron.ScheduledHeadConsumed | includes/integrations/wpl-google-my-business.php:682-692 | a delivered string-id head that exists as a post, whatever its status, leaves the schedule, the rest kept in order; the used log stays as it was |
| GmbCron.ExhaustedListingsRestart | includes/integrations/wpl-google-my-business.php:475-479 | when all recent listings are used, the log is cleared and the newest is posted; once delivered, it is the log's only id |
| GmbCron.ExclusionListIgnored | includes/integrations/wpl-google-my-business.php:452-484 | a tick behaves identically whatever the exclusion list holds, and leaves the list as it was |
| GmbCron.TickKeepsLogBound | includes/integrations/wpl-google-my-business.php:682-699 | a tick keeps the used log at most fifty ids long |
| GmbPreferences.SavePreferences | includes/integrations/wpl-google-my-business.php:193-233 | a non-empty frequency is saved and moves the event as the interval update does; the auto-post flag and the overrides follow the form's truthiness; posted link, photo and summary replace the defaults and absent ones keep them; the location rows are applied to the saved locations; tokens, logs and lists are untouched |
| GmbPreferences.FrequencyRearmsEvent | includes/integrations/wpl-google-my-business.php:195-198 | a form frequency moves an armed event to that recurrence at its fire time, and arms nothing when none is armed |
| GmbPreferences.UnmentionedLocationsKept | includes/integrations/wpl-google-my-business.php:222-233 | locations the form does not mention are kept |
| GmbPreferences.LocationRowDecidesShare | includes/integrations/wpl-google-my-business.php:222-233 | each location row leaves an entry whose flag is on if and only if the location was saved and a non-empty number was posted |
| GmbExclusion.Dedup | includes/integrations/wpl-google-my-business.php:944 | the result has no two ids with the same string form, and is never longer than the input |
| GmbExclusion.DedupCovers | includes/integrations/wpl-google-my-business.php:944 | every id of the input has a twin with the same string form in the result |
| GmbExclusion.DedupOfDistinct | includes/integrations/wpl-google-my-business.php:944 | a list without duplicates is left unchanged |
| GmbExclusion.AddExcluded | includes/integrations/wpl-google-my-business.php:942-947 | the result has no duplicates and holds `absint(post_id)` and a twin of every id already there |
| GmbExclusion.AddReadsExponent | includes/integrations/wpl-google-my-business.php:943 | a post id submitted as "1e3" is stored as listing 1000 |
| GmbExclusion.AddToDistinct | includes/integrations/wpl-google-my-business.php:942-947 | on a duplicate-free list, "add" appends `absint(post_id)` unless its twin is already there |
| GmbExclusion.AddIsIdempotent | includes/integrations/wpl-google-my-business.php:942-947 | adding the same id twice is the same as adding it once |
| GmbExclusion.RemoveExcluded | includes/integrations/wpl-google-my-business.php:949-957 | there is no write if and only if no id loosely equals the submitted one; otherwise exactly one id goes |
| GmbExclusion.RemoveTakesFirstOnly | includes/integrations/wpl-google-my-business.php:950-955 | only the first loosely equal id is spliced out |
| GmbExclusion.UpdateExclusionList | includes/integrations/wpl-google-my-business.php:934-958 | "clear" empties the list; "add" writes if and only if the post id is non-empty; "remove" writes if and only if something matches; other types and a missing post id write nothing; only the list changes |
| GmbExclusion.AddThenRemove | includes/integrations/wpl-google-my-business.php:942-957 | on the plugin's own lists (distinct integers), adding a new listing id and removing it restores the list |
| GmbExclusion.AddKeepsListsWellFormed | includes/integrations/wpl-google-my-business.php:942-947 | adding keeps a list of integers a duplicate-free list of integers |
| PhpValues.LooseEq | includes/integrations/wpl-google-my-business.php:469 | ids with the same string form are loosely equal; two integers only when they are the same; a non-numeric string only to the same string |
| PhpValues.LooseEqIntAndItsString | includes/integrations/wpl-google-my-business.php:469 | an integer is loosely, but not strictly, equal to its decimal string |
| PhpValues.IntVal | includes/integrations/wpl-google-my-business.php:943 | on an integer numeric string, `intval` is that integer |
| PhpValues.AbsInt | includes/integrations/wpl-google-my-business.php:943 | `absint` is `intval` or its negation, and on an integer numeric string its absolute value |
| PhpValues.IntValReadsExponent | includes/integrations/wpl-google-my-business.php:943 | "1e3" reads as 1000 |
| PhpValues.IntValScalesFraction | includes/integrations/wpl-google-my-business.php:943 | "-2.5e1" reads as -25, so `absint` gives 25 |
| PhpValues.IntValTruncatesFraction | includes/integrations/wpl-google-my-business.php:943 | "12.9" reads as 12 |
| PhpValues.IntValIgnoresBareExponent | includes/integrations/wpl-google-my-business.php:943 | "7e" reads as 7 |
| PhpValues.IntValRoundTrip | includes/integrations/wpl-google-my-business.php:943 | `intval` and `absint` read back every integer PHP renders |
| ListingTemplate.ListingTemplates | includes/class-listing-template.php:24-34 | exactly the five plugin templates, plus the First Impression template if and only if that theme is the stylesheet |
| ListingTemplate.TemplateFile | includes/class-listing-template.php:42-55 | each of the five plugin keys resolves to the plugin directory plus the key; the theme key resolves to the stylesheet directory plus `/single-listing-first-impression.php`; nothing else resolves |
| ListingTemplate.LoadTemplate | includes/class-listing-template.php:37-58 | a non-listing, or a listing without meta, passes the incoming template through; a known key gives its file; an unknown value passes the template through |
| ListingTemplate.OfferedTemplatesLoad | includes/class-listing-template.php:24-55 | every template the edit screen offers loads its own file |
| ListingTemplate.SplitJoin | includes/class-listing-template.php:126 | comma-free values joined by `implode` split back into the same values |
| ListingTemplate.WriteTemplateMeta | includes/class-listing-template.php:126-136 | a blank value (`""` or `"0"`) leaves no rows; otherwise every existing row, or one new row, holds the value |
| ListingTemplate.MetaboxSave | includes/class-listing-template.php:97-139 | a missing or invalid nonce, or a revision, writes nothing; a type other than "listing" is written without any capability check; "listing" with both capabilities is written, and without both is refused |
| ListingTemplate.MetaboxSaveIntended | includes/class-listing-template.php:106-112 | meta changes only with a valid nonce, on a non-revision, and with `edit_page` for listings or `edit_post` otherwise |
| ListingTemplate.DanglingElseCounterexamples | includes/class-listing-template.php:107-112 | a user with no capabilities changes a "post"'s template; a page editor cannot change a listing's |
| ListingTemplate.DanglingElseDiffers | includes/class-listing-template.php:107-112 | the exact requests on which the written and the intended capability tests agree |
| ListingTemplate.SaveThenLoad | includes/class-listing-template.php:41-55 | after an authorised save of a known template, the listing renders that template's file; after saving a blank value, it renders the incoming template |

## Left out

- HTTP: calls to Google and to the token endpoint, and JSON encoding and decoding. Their results are parameters: fetched locations, token availability, and the response code with the error message.
- Token handling: the token manager, `wpl_gmb_set_initial_tokens`, `save_authentication_keys` and the account/location fetchers. Only their outcomes enter, as parameters.
- Other Ajax handlers: clear settings, update and clear scheduled posts, clear the status, post now, and the reset-time request. None of them is part of the posting policy.
- Plumbing: capability and nonce checks of the Ajax handlers, `wp_die` and echoed sentinels, `wp_unslash`, `sanitize_text_field` and `sanitize_key`. A request is taken as already authorised, and text fields as already sanitised.
- Re-arming by WordPress: WP-Cron schedules the next run of a recurring event itself, before the hook runs. The plugin's own code never re-arms it after a success, which is why the success paths keep the timer as it was. The model does not include WordPress's re-arming.
- Transients, `time()`, cron hook registration, `date_i18n` and the next-post-time display. The current time is a parameter `now`.
- `get_locale`, the request body layout and the `LEARN_MORE`/`PHOTO` constants. The model records only what is sent and where.
- Opaque functions: `strip_tags` and `wp_http_validate_url` are uninterpreted functions; `get_headers`, `getimagesize`, `get_permalink` and `get_the_post_thumbnail_url` are inputs.
- UI: the settings page view, the metabox and dropdown HTML, and the singleton and hook registration.
- PHP numeric strings in loose comparison: leading or trailing white space, decimals and exponents. `LooseEq` reads only integer numeric strings, so "1e3" is not loosely equal to 1000 here. `intval` and `absint` do read fractions and exponents.
- PhpValues.IntVal: reads the number exactly instead of through a double. A value a double cannot hold exactly, or one out of integer range, gives a different result.
- PHP integer overflow: integers are unbounded.
- Post statuses of the schedule head: the tick's guard only asks whether `get_post_status` returns a status, so a draft, pending, private or trashed head is posted like a published one. The model keeps this and reduces the status to one flag, `headExists`.
- `substr` counts bytes while the model counts characters. A multi-byte summary may be cut at a different place.
- A stored nested array missing some of its keys: each nested record is either stored whole or defaulted whole.
- GmbExclusion.Dedup: renumbers the list, while `array_unique` keeps the surviving keys. The gap only shows when an earlier duplicate exists, and lists built by "add" never have one (`GmbExclusion.AddKeepsListsWellFormed`).
- Form keys of the `locations` array that PHP would turn into integers are kept as strings.
- GmbPreferences.SavePreferences: does not model the handler's guard. That guard requires the three form sections and the nonce to be present; a request missing one writes nothing.

## Findings

| source | as written | input that shows it | evidently intended | confidence | as-written member | corrected member |
|---|---|---|---|---|---|---|
| includes/class-listing-template.php:107-112 | the `else` binds to the inner `if`: a posted type other than "listing" skips the capability check, and "listing" needs both `edit_page` and `edit_post` | posted type "post", a user with neither capability, template "listing-templates/single-listing-elegant.php": the meta is written | "listing" needs `edit_page`, any other type `edit_post` | medium, not executed | ListingTemplate.MetaboxSave | ListingTemplate.MetaboxSaveIntended |
