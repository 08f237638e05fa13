# Restaurant directory — a verified model of its core

The restaurant directory is an Express/Sequelize backend with a React frontend.
Business owners register restaurants. Administrators approve, reject and delete
them. Users sign up, log in and review restaurants.

This project models the parts of both halves where the logic lives:

- **Backend.**
  - The account operations of the authentication and user controllers.
  - The restaurant lifecycle that administrators drive: approve, reject,
    approve-delete, and the cascade to reviews.
  - Review creation and its rating accumulators, review listing and review deletion.
  - The `protect`, `adminOnly` and `protectAdmin` middleware, and the error handler.
  - The S3 helpers' object keys.
  - The Restaurant and Review records with their validation and defaults.
- **Frontend.**
  - The sign-up and login field checks.
  - The working-hours payload of the business registration page.
  - The detail page's "days open" and "custom hours" texts and its address line.
  - The owner dashboard's form handling: notices, menu, gallery edits, and the
    registration and update requests.
  - The admin panel's four status buckets.

Each stateful part is a class whose methods update fields as the source does:

- `Accounts.UserTable` for the user table;
- `Lifecycle.Store` for the restaurant and review tables and the outgoing mail;
- `OwnerDashboard.GalleryEdit` for the gallery editor's state;
- `AdminPanel.Panel` for the admin panel's lists.

Loops in the source (the day-range compression, the time-group building, the
`forEach` that fills `specific`, the form-data appends) are methods with loop
invariants, proved equal to a specification function. Each specification
function then has its own properties proved as lemmas.

Things outside the program become parameters:

- Password hashing and comparison, JWT signing and verification, SHA-256,
  `isStrongPassword`, UUIDs and the clock become function or value parameters.
- Whether a request, an e-mail or an S3 call succeeded becomes a `bool`, an
  `OwnerMail` outcome or a `Result`-returning function.

## Model

| member | source | states |
|---|---|---|
| Records.ParseStatus | backend/models/Restaurant.js:72-76 | a parsed status text is exactly the name of the status it yields |
| Records.StatusRoundTrip | backend/models/Restaurant.js:72-76 | every status name parses back to its status, so the enum and its texts are in bijection |
| Records.ParsePrice | backend/models/Restaurant.js:38-41 | a parsed price text is exactly the name of the price range it yields |
| Records.PriceRoundTrip | backend/models/Restaurant.js:38-41 | every price range name parses back to its range |
| Records.MissingRequired | backend/models/Restaurant.js:10-37 | no column is reported missing iff name, street, city, state, pincode, category, priceRange and ownerId are all given |
| Records.BadEnums | backend/models/Restaurant.js:38-41 | no enum violation iff any given priceRange and status are among the allowed values |
| Records.CreateRestaurant | backend/models/Restaurant.js:4-97 | a row is created iff nothing required is missing, the status is not null and the enums are valid; otherwise the failure lists exactly the offending columns |
| Records.CreateRestaurantDefaults | backend/models/Restaurant.js:42-76 | a created row takes the fresh id, status pending, zero accumulators, both hour flags true, no delete flag, and the given fields unchanged |
| Records.NullStatusIsRefused | backend/models/Restaurant.js:72-76 | the status default applies only to an undefined status: a draft stored as pending with status undefined is refused on `status` once its status is null |
| Records.CreatedRowsHaveNoDeleteFlag | backend/models/Restaurant.js:4-97 | a newly created row never carries a `deleteRequested` flag, since the schema declares no such attribute |
| Records.BuildingSegment | backend/controllers/authController.js:159-162 | the building part is empty iff no building or an empty one is given, else it is the building followed by ", " |
| Records.MiddleDecides | backend/controllers/authController.js:159-162 | two texts with equal surroundings are equal iff their middles are |
| Records.CreateReviewRow | backend/models/Review.js:4-25 | a review row is created iff restaurantId, userId and rating are given; its fields are those given, with the fresh id by default |
| Accounts.RoleOrUser | backend/controllers/authController.js:69-74 | the role is the given one when it is a non-empty text, else "user" |
| Accounts.FindByEmailIsUnique | backend/controllers/authController.js:12-17 | with unique emails the lookup finds nothing iff no user has the email, and finds the only one that does |
| Accounts.TokenWindow | backend/controllers/userController.js:138-142 | a reset token set at time t0 is honoured at time t iff t is under t0 plus ten minutes |
| Accounts.ResetTokenIsSingleUse | backend/controllers/userController.js:183-199 | once a reset token has been used, no user holds it at any later time |
| Accounts.ReplaceKeepsUnique | backend/controllers/userController.js:41-61 | updating one user in place keeps ids and emails unique when the new email is unused or unchanged |
| Accounts.AppendKeepsUnique | backend/controllers/authController.js:66-74 | adding a user with a fresh id and an unused email keeps ids and emails unique |
| Accounts.UserTable.LoginUser | backend/controllers/authController.js:10-30 | unknown email or wrong password gives 401 and no session; otherwise 200 and a session with the user's id, name, email, role and a token signed over id and role |
| Accounts.UserTable.VerifyEmail | backend/controllers/authController.js:33-46 | unknown id gives 404 and no change; otherwise only that user becomes verified |
| Accounts.UserTable.RegisterUser | backend/controllers/authController.js:49-89 | weak password or existing email gives 400 and no change; otherwise the user is appended with a hashed password and role-or-user, and a verification mail and 201 follow, or 500 when the mail fails |
| Accounts.UserTable.RegisterBusinessOwner | backend/controllers/authController.js:91-135 | empty fields, a weak password and an existing email each give their 400; otherwise a business owner is appended and a token is returned with 201 |
| Accounts.UserTable.UpdateUserProfile | backend/controllers/userController.js:30-90 | unknown id gives 404; an email taken by another account gives 400; a failed verification mail gives 500 and no change; otherwise name, email and password are updated as given, and a verification mail goes out iff the email changed |
| Accounts.UserTable.ChangeUserPassword | backend/controllers/userController.js:93-122 | unknown id gives 404; a wrong current password, the same password and a weak one each give their 400; otherwise only the password hash changes; no non-200 reply changes anything |
| Accounts.UserTable.ForgotPassword | backend/controllers/userController.js:125-175 | unknown email gives 404; otherwise the user holds the hashed token valid for ten minutes, and the link is mailed with 200, or 500 when the mail fails |
| Accounts.UserTable.ResetPassword | backend/controllers/userController.js:178-206 | no user holding an unexpired token gives 400; otherwise that user's password is replaced and the token is cleared, so it can never be used again |
| Guards.SecondSegment | backend/middleware/authMiddleware.js:38 | the token exists iff the header has a space, and it contains no space |
| Guards.Protect | backend/middleware/authMiddleware.js:4-27 | the request passes iff the header starts with "Bearer", the token verifies and its user exists, and then carries that user; every refusal is 401 |
| Guards.AdminOnly | backend/middleware/authMiddleware.js:30-35 | the request passes iff the user's role is admin, and is otherwise refused with 403 |
| Guards.ProtectAdmin | backend/middleware/authMiddleware.js:37-58 | the request passes iff the header's second segment verifies to an existing admin; a missing or empty second segment is 401 "no token", a non-empty token that fails verification is 401 "token failed", and a verified token whose account is missing or not an admin is 403 |
| Guards.SecondSegmentOfHeader | backend/middleware/authMiddleware.js:9 | "scheme token" yields exactly the token |
| Guards.ProtectAdminIgnoresScheme | backend/middleware/authMiddleware.js:7-45 | `protectAdmin` decides the same whatever the scheme word, while `protect` refuses any scheme other than Bearer |
| Guards.AdminChainsAgree | backend/middleware/authMiddleware.js:4-58 | for a Bearer header, `protect` followed by `adminOnly` admits exactly the requests `protectAdmin` admits, with the same user |
| Guards.AdminRoute | frontend/src/components/AdminRoute.js:5-21 | the admin page is shown iff a stored token decodes to an admin; a missing or undecodable token goes to the login page |
| ErrorHandler.HandleError | backend/middleware/errorHandler.js:2-10 | the reply is never 200 (a 200 becomes 500), keeps the error message, and carries the stack iff not in production |
| ErrorHandler.HandleErrorIdempotent | backend/middleware/errorHandler.js:2-10 | handling the reply's own status again yields the same reply |
| StorageKeys.KeyOf | backend/utils/s3.js:44-45 | the key has no slash and is the whole URL when the URL has none |
| StorageKeys.KeyIsLastSegment | backend/utils/s3.js:44-45 | the key is the URL's suffix after its last slash |
| StorageKeys.KeysOf | backend/utils/s3.js:40-46 | keys exist iff every element is a text, one per URL in order; otherwise the error names the first non-text element |
| StorageKeys.DeleteObjects | backend/utils/s3.js:35-53 | a missing, non-array or empty argument is refused; otherwise one gallery key is produced per URL, in order |
| StorageKeys.DeleteFromS3 | backend/utils/s3.js:35-63 | a refused argument yields its error without a request; otherwise the reply is the storage call's reply |
| StorageKeys.BadArgumentMakesNoRequest | backend/utils/s3.js:36-46 | for a bad argument the outcome does not depend on the storage call, and it is an error |
| StorageKeys.DropTrailingSlashes | backend/utils/s3.js:18 | the result is a prefix of the path and does not end in a slash |
| StorageKeys.Basename | backend/utils/s3.js:18 | a base name contains no slash |
| StorageKeys.UploadFileName | backend/utils/s3.js:18 | the object name starts with the folder and a slash and ends with the file's base name |
| StorageKeys.UploadToS3 | backend/utils/s3.js:17-33 | the upload is asked for the `folder/uuid_basename` key; whatever the cause of a failure, the reply is the same "Failed to upload to S3" |
| StorageKeys.UploadThenDeleteRoundTrip | backend/utils/s3.js:17-63 | when the bucket reports origin plus key as the location, the returned location fed back to delete asks for exactly the stored object iff the upload went to the gallery folder |
| StorageKeys.DeleteTargetsUploadedGalleryObject | backend/utils/s3.js:17-63 | deleting an uploaded object's location targets exactly the stored object iff it was uploaded to the gallery folder |
| StorageKeys.SameTailDecidesFolder | backend/utils/s3.js:48-53 | two folders with the same key give the same object iff the folders are equal |
| StorageKeys.KeyOfAfterSlash | backend/utils/s3.js:44-45 | the key of anything ending in a slash and a slash-free name is that name |
| Days.IndexOf | frontend/src/pages/RestaurantDetailPage.js:110 | the result is -1 iff the day is absent, and otherwise the first position holding it |
| Days.Toggle | frontend/src/pages/BusinessRegistrationPage.js:89-93 | toggling flips the day's membership and no other day's; an absent day is appended; a present one is removed |
| Days.FilterDropsMember | frontend/src/pages/BusinessRegistrationPage.js:91 | filtering out a present element shortens the list |
| Days.ToggleTwiceAbsent | frontend/src/pages/BusinessRegistrationPage.js:89-93 | toggling an absent day twice restores the list |
| Days.TogglePresentTwiceMovesToEnd | frontend/src/pages/BusinessRegistrationPage.js:89-93 | toggling a present day twice keeps the same days but moves that one to the end |
| Days.OpenDays | frontend/src/pages/BusinessRegistrationPage.js:153-159 | all seven days when open all days; otherwise exactly the week days not closed, in week order |
| Days.ToggleFlipsOpenDay | frontend/src/pages/BusinessRegistrationPage.js:89-93 | toggling a closed day flips whether that day is open and leaves every other day's openness unchanged |
| Days.SetDayHours | frontend/src/pages/BusinessRegistrationPage.js:95-103 | only the edited field of the edited day changes, and every other day and field is kept |
| Registration.SpecificOf | frontend/src/pages/BusinessRegistrationPage.js:191-195 | at most one entry per candidate day, each for a candidate with both times; SpecificMembers states the converse |
| Registration.SpecificMembers | frontend/src/pages/BusinessRegistrationPage.js:191-195 | an entry is sent iff its day is a candidate with a non-empty start and end, carrying those times |
| Registration.SpecificNoLonger | frontend/src/pages/BusinessRegistrationPage.js:191-195 | no more entries are sent than there are candidate days |
| Registration.BuildSpecific | frontend/src/pages/BusinessRegistrationPage.js:191-195 | the loop builds exactly the specification's entry list, in candidate order |
| Registration.AssembleWorkingHours | frontend/src/pages/BusinessRegistrationPage.js:177-210 | the flags and closed days are always sent; with the same hours the shared start and end are sent; otherwise per-day hours over the open days |
| Registration.SpecificDaysAreOpenDays | frontend/src/pages/BusinessRegistrationPage.js:153-210 | with per-day hours a day is sent iff it is a week day, is open, and has both times |
| Registration.DayWiseChangeIsLocal | frontend/src/pages/BusinessRegistrationPage.js:95-103 | editing one day's field leaves every other day's payload entry unchanged |
| DetailPage.RunEnd | frontend/src/pages/RestaurantDetailPage.js:107-118 | a run extends over consecutive week days and stops where the next day is not the following one |
| DetailPage.Runs | frontend/src/pages/RestaurantDetailPage.js:107-118 | the runs lie within the list and begin at its start |
| DetailPage.RunsChain | frontend/src/pages/RestaurantDetailPage.js:107-118 | each run begins right after the previous one, which ends where consecutiveness breaks, so runs are maximal |
| DetailPage.RunsReachEnd | frontend/src/pages/RestaurantDetailPage.js:107-118 | the last run ends at the last open day |
| DetailPage.RunsAreAdjacent | frontend/src/pages/RestaurantDetailPage.js:110 | inside a run, each day is followed by the next week day |
| DetailPage.RunsOrdered | frontend/src/pages/RestaurantDetailPage.js:107-118 | runs come in order and do not overlap |
| DetailPage.EachDayInExactlyOneRun | frontend/src/pages/RestaurantDetailPage.js:107-118 | every open day lies in exactly one run |
| DetailPage.RunContaining | frontend/src/pages/RestaurantDetailPage.js:107-118 | gives the run holding a given open day |
| DetailPage.RunIsContiguous | frontend/src/pages/RestaurantDetailPage.js:110 | the days of a run are consecutive week days |
| DetailPage.CompressDays | frontend/src/pages/RestaurantDetailPage.js:106-118 | the loop pushes exactly one label per run: the single day, or "first - last" |
| DetailPage.GroupedDays | frontend/src/pages/RestaurantDetailPage.js:142-155 | the inner loop builds the run labels joined by ", " |
| DetailPage.WeekOpenMembers | frontend/src/pages/RestaurantDetailPage.js:96-100 | a day is open iff it is a week day not listed as closed |
| DetailPage.WeekOpenIncreasing | frontend/src/pages/RestaurantDetailPage.js:96-100 | open days come in Sunday-first week order |
| DetailPage.DaysOpenText | frontend/src/pages/RestaurantDetailPage.js:93-121 | the text `formatDaysOpen` returns; FormatDaysOpen computes it with the source's loops, and NoWrapAround and AllWeekIsOneRange show it on given weeks |
| DetailPage.FormatDaysOpen | frontend/src/pages/RestaurantDetailPage.js:93-121 | the text is the specification's: "Not specified" without hours, "Closed All Days", or "Open: " and the run labels |
| DetailPage.NoWrapAround | frontend/src/pages/RestaurantDetailPage.js:96-120 | with Tuesday to Friday closed the text is "Open: Sunday - Monday, Saturday": Saturday and Sunday are never joined |
| DetailPage.AllWeekIsOneRange | frontend/src/pages/RestaurantDetailPage.js:97-120 | with nothing closed the text is "Open: Sunday - Saturday" |
| DetailPage.WeekIsOneRun | frontend/src/pages/RestaurantDetailPage.js:107-118 | the whole week compresses to one range |
| DetailPage.OpenWithoutMidweek | frontend/src/pages/RestaurantDetailPage.js:100 | closing Tuesday to Friday leaves Sunday, Monday and Saturday open |
| DetailPage.SaturdayEndsRun | frontend/src/pages/RestaurantDetailPage.js:110 | a run never continues past Saturday |
| DetailPage.GroupsOf | frontend/src/pages/RestaurantDetailPage.js:134-140 | `timeGroups` after the loop: no more groups than entries, and at least one when there is an entry; GroupsOfCorrect states the rest |
| DetailPage.FirstEntryWith | frontend/src/pages/RestaurantDetailPage.js:134-140 | the position of the first entry with a time range: that entry has it and no earlier one does |
| DetailPage.FirstEntryWithIffDays | frontend/src/pages/RestaurantDetailPage.js:134-140 | a time range occurs in the entries iff some day is listed under it |
| DetailPage.GroupsOfCorrect | frontend/src/pages/RestaurantDetailPage.js:134-140 | the groups' time ranges are distinct, one per time range entered, each group lists exactly the days with that range, in entry order, and the groups come in the order their ranges first occur |
| DetailPage.GroupByRange | frontend/src/pages/RestaurantDetailPage.js:134-140 | the loop builds exactly the specification's groups |
| DetailPage.CustomHoursText | frontend/src/pages/RestaurantDetailPage.js:125-168 | the text `formatCustomHours` returns; FormatCustomHours computes it with the source's loops |
| DetailPage.FormatCustomHours | frontend/src/pages/RestaurantDetailPage.js:125-168 | the text is the specification's: per-group texts when specific hours exist, else "All Days: start - end", else "Not specified" |
| DetailPage.FullAddress | frontend/src/pages/RestaurantDetailPage.js:175-177 | the `fullAddress` template; FullAddressShowsBuilding proves the building shows iff it is non-empty |
| DetailPage.FullAddressShowsBuilding | frontend/src/pages/RestaurantDetailPage.js:175-177 | two addresses differing only in the building are equal iff their building parts are; an empty building shows nothing |
| Lifecycle.StatusMails | backend/controllers/authController.js:182-185 | at most one status mail, sent iff the owner's address is known, to that address with the restaurant's name and new status |
| Lifecycle.AverageRating | backend/controllers/reviewController.js:48-51 | an average exists iff there is a rating; it is total over count, and lies between 1 and 5 when the accumulators are sane |
| Lifecycle.AddRating | backend/controllers/reviewController.js:44-45 | one more rating: the average becomes the old total plus the rating over the old count plus one, and nothing but the two accumulators changes |
| Lifecycle.AddRatingKeepsSane | backend/controllers/reviewController.js:44-46 | adding a rating from 1 to 5 keeps the total within 1 to 5 times the count |
| Lifecycle.ApplyRatingsAccumulates | backend/controllers/reviewController.js:44-46 | after a run of ratings the count grew by their number and the total by their sum |
| Lifecycle.SumAppend | backend/controllers/reviewController.js:44-46 | the sum of two runs of ratings is the sum of their sums |
| Lifecycle.SumRemove | backend/controllers/reviewController.js:44-46 | removing one rating lowers the sum by that rating |
| Lifecycle.SumIsOrderFree | backend/controllers/reviewController.js:44-46 | runs with the same ratings in any order have the same sum |
| Lifecycle.SumBounds | backend/controllers/reviewController.js:18-20 | ratings from 1 to 5 sum to between their number and five times it |
| Lifecycle.RatingsFromDefaults | backend/controllers/reviewController.js:44-51 | from zeroed accumulators, any order of N ratings gives count N, total their sum and average their mean |
| Lifecycle.ReviewsOf | backend/controllers/reviewController.js:78-83 | exactly the reviews of that restaurant |
| Lifecycle.FindReview | backend/controllers/reviewController.js:95-99 | finds a review with that id, or nothing iff none has it |
| Lifecycle.PendingAddress | backend/controllers/authController.js:161 | the pending-list address template; PendingAddressShowsBuilding proves the building shows iff it is non-empty |
| Lifecycle.PendingAddressShowsBuilding | backend/controllers/authController.js:159-162 | two pending addresses differing only in the building are equal iff their building parts are |
| Lifecycle.ApproveDeleteCheckAsWritten | backend/controllers/authController.js:226-233 | as written, deletion proceeds iff the row exists and carries the delete flag, and a missing row gives 500 |
| Lifecycle.ApproveDeleteCheckIntended | backend/controllers/authController.js:222-233 | as intended, deletion proceeds iff the row exists with status delete_requested, and a missing row gives 404 |
| Lifecycle.ApproveDeleteAsWrittenRefusesRequestedRows | backend/controllers/authController.js:226-233 | a created row moved to delete_requested is refused with 400 as written but accepted as intended; a missing row gives 500, not 404 |
| Lifecycle.InsertKeepsConsistent | backend/models/Restaurant.js:42-49 | a new restaurant has no reviews, and adding it keeps the tables consistent |
| Lifecycle.DestroyKeepsConsistent | backend/controllers/authController.js:236-239 | removing a restaurant with its reviews leaves none of them behind and keeps the tables consistent |
| Lifecycle.AddReviewKeepsConsistent | backend/controllers/reviewController.js:30-46 | adding a review and its rating keeps every review attached to a restaurant and the accumulators sane |
| Lifecycle.DeleteReviewKeepsConsistent | backend/controllers/reviewController.js:102-104 | deleting a review keeps the tables consistent |
| Lifecycle.Store.Insert | backend/models/Restaurant.js:4-97 | the new row, which like every created row carries no delete flag, is added and nothing else changes |
| Lifecycle.Store.Lookup | backend/controllers/authController.js:176 | finds the row iff the id is stored |
| Lifecycle.Store.Approve | backend/controllers/authController.js:172-192 | unknown id gives 404 and no change; otherwise the status becomes approved, the owner is mailed, and 200 or, when the mail fails, 500 is returned |
| Lifecycle.Store.Reject | backend/controllers/authController.js:195-218 | unknown or non-pending id gives 404 and no change; otherwise the status becomes rejected, the owner is mailed, and 200 or 500 is returned |
| Lifecycle.Store.SetStatus | backend/controllers/authController.js:178-179 | only that restaurant's status changes |
| Lifecycle.Store.Notify | backend/controllers/authController.js:182-190 | the mail is recorded when deliverable, and the reply is the failure reply iff sending failed |
| Lifecycle.Store.ApproveDelete | backend/controllers/authController.js:222-249 | as written: since no stored row carries the delete flag, every call is refused, with 400 for a stored id and 500 for an unknown one, and nothing is deleted or mailed; the cascade after the flag test is unreachable |
| Lifecycle.Store.ApproveDeleteIntended | backend/controllers/authController.js:222-249 | as intended: the same, but the check is on the status, and a missing id gives 404 |
| Lifecycle.Store.DestroyWithReviews | backend/controllers/authController.js:236-239 | the restaurant and exactly its reviews are removed, and no review of it remains |
| Lifecycle.Store.CreateReview | backend/controllers/reviewController.js:9-62 | 201 iff the rating is a number from 1 to 5 and the restaurant exists; a null or out-of-range rating gives 400, an unknown restaurant 404, an absent rating 500, each with no change; on 201 the review is appended, the accumulators grow by one and the rating, and the new average is returned |
| Lifecycle.RangeRefuses | backend/controllers/reviewController.js:18 | the range test under JavaScript comparison: null is refused, an absent value passes; CreateReview states the replies it leads to |
| Lifecycle.RatingColumn | backend/controllers/reviewController.js:18-35 | a rating past the range test reaches the non-null column as a number from 1 to 5 iff it was a number, and as nothing iff it was absent |
| Lifecycle.Store.GetReviewsForRestaurant | backend/controllers/reviewController.js:67-88 | unknown restaurant gives 404 and nothing; otherwise 200 and exactly its reviews |
| Lifecycle.Store.DeleteRating | backend/controllers/reviewController.js:90-109 | unknown id gives 404; otherwise exactly that review goes, and the accumulators are left as they were |
| Lifecycle.Store.PendingRestaurants | backend/controllers/authController.js:138-169 | exactly one row per pending restaurant, holding its selected attributes and its formatted address, and no other row |
| Lifecycle.PendingRowShowsSelectedAttributesOnly | backend/controllers/authController.js:140-162 | two restaurants give the same pending row iff they agree on the selected attributes: status, owner, accumulators and the rest are not sent |
| Lifecycle.AddThenDeleteRestoresReviews | backend/controllers/reviewController.js:30-104 | deleting a just-added review restores the review list |
| Lifecycle.OtherIdsKept | backend/controllers/reviewController.js:102-104 | deleting an id no review has changes nothing |
| Lifecycle.OwnIdDropped | backend/controllers/reviewController.js:102-104 | deleting a review's own id removes it |
| OwnerDashboard.TrimLines | frontend/src/pages/BusinessOwnerDashboard.js:261 | one trimmed line per line |
| OwnerDashboard.TrimKeepsOut | frontend/src/pages/BusinessOwnerDashboard.js:261 | trimming never introduces a character |
| OwnerDashboard.NonEmptyLines | frontend/src/pages/BusinessOwnerDashboard.js:261 | the split, trim and blank-line filter of a text area; NonEmptyLinesAreClean and LinesRoundTrip state what it keeps |
| OwnerDashboard.NonEmptyLinesAreClean | frontend/src/pages/BusinessOwnerDashboard.js:261 | the saved lines are non-empty, trimmed and free of line breaks |
| OwnerDashboard.LinesRoundTrip | frontend/src/pages/BusinessOwnerDashboard.js:222-261 | clean lines joined by newlines split back to the same lines |
| OwnerDashboard.NoticesText | frontend/src/pages/BusinessOwnerDashboard.js:222-226 | the notices text area's initial value; NoticesRoundTrip proves clean notices come back unchanged |
| OwnerDashboard.NoticesRoundTrip | frontend/src/pages/BusinessOwnerDashboard.js:222-261 | clean notices loaded into the editor are saved back unchanged |
| OwnerDashboard.NoticesSaveIsStable | frontend/src/pages/BusinessOwnerDashboard.js:222-261 | saving, reloading and saving again gives the same notices |
| OwnerDashboard.MenuLines | frontend/src/pages/BusinessOwnerDashboard.js:228-231 | one line per menu item |
| OwnerDashboard.ParseMenu | frontend/src/pages/BusinessOwnerDashboard.js:262-265 | one item per non-empty line |
| OwnerDashboard.MenuText | frontend/src/pages/BusinessOwnerDashboard.js:228-232 | the menu text area's initial value; MenuRoundTrip proves a loaded menu comes back unchanged |
| OwnerDashboard.ParseMenuLine | frontend/src/pages/BusinessOwnerDashboard.js:263-264 | `parts[0]` and `parts[1]` of `split('\|')`; MenuLineRoundTrip proves it inverts the "name\|price" line |
| OwnerDashboard.MenuLineRoundTrip | frontend/src/pages/BusinessOwnerDashboard.js:228-265 | an item shown as "name\|price" is parsed back to that name and price text |
| OwnerDashboard.MenuRoundTrip | frontend/src/pages/BusinessOwnerDashboard.js:228-265 | a loaded menu saved without edits yields the same items in order |
| OwnerDashboard.Keys | frontend/src/pages/BusinessOwnerDashboard.js:173-176 | one key per form part |
| OwnerDashboard.AppendParts | frontend/src/pages/BusinessOwnerDashboard.js:173-176 | the loop appends every entry after the existing parts, in order |
| OwnerDashboard.GalleryParts | frontend/src/pages/BusinessOwnerDashboard.js:296-298 | one part per new gallery file |
| OwnerDashboard.RegistrationPayload | frontend/src/pages/BusinessOwnerDashboard.js:160-171 | the registration payload in key order; SentRegistrationIsComplete states what a sent one carries |
| OwnerDashboard.RegisterBusiness | frontend/src/pages/BusinessOwnerDashboard.js:131-194 | refused with the required-fields error iff a required field, the map location or, when not open every day, a closed day is missing; otherwise sends the payload and the thumbnail |
| OwnerDashboard.SentRegistrationIsComplete | frontend/src/pages/BusinessOwnerDashboard.js:136-171 | a sent registration carries every required field non-empty, and its hours are open every day or name a closed day |
| OwnerDashboard.RefusedRegistrationReason | frontend/src/pages/BusinessOwnerDashboard.js:136-149 | a refused registration has an empty required field, no map location, or no closed day while not open every day |
| OwnerDashboard.GalleryEdit.constructor | frontend/src/pages/BusinessOwnerDashboard.js:103-105 | the editor starts with no images, no new files and nothing to delete |
| OwnerDashboard.GalleryEdit.Load | frontend/src/pages/BusinessOwnerDashboard.js:234-240 | selecting a restaurant shows its gallery, or nothing, and clears new files and deletions |
| OwnerDashboard.GalleryEdit.AddGalleryImages | frontend/src/pages/BusinessOwnerDashboard.js:332-335 | the files are appended to the new files and nothing else changes |
| OwnerDashboard.GalleryEdit.DeleteGalleryImage | frontend/src/pages/BusinessOwnerDashboard.js:337-339 | the URL is queued for deletion and nothing else changes |
| OwnerDashboard.GalleryEdit.DeleteImage | frontend/src/pages/BusinessOwnerDashboard.js:341-346 | the URL leaves the shown images, the others stay in order, and it is queued for deletion |
| OwnerDashboard.UpdatePayload | frontend/src/pages/BusinessOwnerDashboard.js:275-288 | the update payload in key order; UpdateCarriesBothHours states the hours it always carries |
| OwnerDashboard.BuildUpdateForm | frontend/src/pages/BusinessOwnerDashboard.js:275-302 | the loop builds exactly the specification's update form |
| OwnerDashboard.UpdateRestaurant | frontend/src/pages/BusinessOwnerDashboard.js:254-316 | the request is the update form built from the parsed notices and menu and the gallery edits |
| OwnerDashboard.UpdateSendsDeletionsIff | frontend/src/pages/BusinessOwnerDashboard.js:300-302 | the deletion list is sent iff something was queued for deletion, and it is that list |
| OwnerDashboard.UpdateCarriesBothHours | frontend/src/pages/BusinessOwnerDashboard.js:267-273 | the update sends the flags, closed days, shared hours and per-day hours together |
| OwnerDashboard.EditToggleFlipsOneDay | frontend/src/pages/BusinessOwnerDashboard.js:421-440 | open every day the edit keeps the whole week; otherwise a toggle flips only that day's openness |
| AdminPanel.Bucket | frontend/src/pages/AdminPanel.js:54-56 | a bucket holds exactly the fetched rows with its status |
| AdminPanel.BucketsPartition | frontend/src/pages/AdminPanel.js:53-56 | a loaded bucket holds exactly the fetched rows of its status, in fetched order, and no row is in two buckets |
| AdminPanel.Moved | frontend/src/pages/AdminPanel.js:74-78 | at most one entry moves: the first with the id, restamped with the new status; none iff no entry has the id |
| AdminPanel.RemoveIdKeepsOthers | frontend/src/pages/AdminPanel.js:75 | removing an id keeps every other entry in order and leaves none with that id |
| AdminPanel.Panel.constructor | frontend/src/pages/AdminPanel.js:35-40 | empty buckets and no messages |
| AdminPanel.Panel.Load | frontend/src/pages/AdminPanel.js:45-66 | on success the pending list and the three status buckets are replaced; on failure only the error is set |
| AdminPanel.Panel.Approve | frontend/src/pages/AdminPanel.js:69-83 | on success the id leaves pending and its entry joins approved; on failure only the error is set |
| AdminPanel.Panel.Reject | frontend/src/pages/AdminPanel.js:85-99 | on success the id leaves pending and its entry joins rejected; on failure only the error is set |
| AdminPanel.Panel.ApproveDelete | frontend/src/pages/AdminPanel.js:101-111 | on success the id leaves only the delete-requested list |
| AdminPanel.Panel.Delete | frontend/src/pages/AdminPanel.js:127-141 | on success the id leaves all four lists |
| AdminPanel.Panel.BucketsDisjoint | frontend/src/pages/AdminPanel.js:53-56 | no restaurant is in two status buckets at once |
| AdminPanel.ApproveGrowsByOneIff | frontend/src/pages/AdminPanel.js:74-78 | approving adds one entry iff some pending entry has the id, and none is left pending |
| FormChecks.FirstLine | frontend/src/pages/RegisterPage.js:16-18 | the first line is the longest prefix without a line terminator |
| FormChecks.LookaheadIsFirstLine | frontend/src/pages/RegisterPage.js:17 | a lookahead for a character class holds iff the first line has such a character |
| FormChecks.AtLeastEightIsFirstLine | frontend/src/pages/RegisterPage.js:17 | the length lookahead holds iff the first line has at least 8 characters |
| FormChecks.ValidPassword | frontend/src/pages/RegisterPage.js:16-18 | the password test: the first line holds a lower-case letter, an upper-case letter, a digit and a special character and has at least 8 characters; ValidPasswordIsPattern ties it to the pattern |
| FormChecks.ValidPasswordIsPattern | frontend/src/pages/RegisterPage.js:16-18 | the password check agrees with the pattern's five lookaheads |
| FormChecks.ValidOneLinePassword | frontend/src/pages/RegisterPage.js:16-18 | for one-line passwords the check is the stated rule: lower, upper, digit, special, at least 8 |
| FormChecks.CheckSignUp | frontend/src/pages/RegisterPage.js:20-47 | the form passes iff name, email and password are valid; each field's message is set iff that field fails |
| FormChecks.SignUpSubmit | frontend/src/pages/RegisterPage.js:36-60 | the request `handleSubmit` sends, or none; SignUpSendsOnlyValid states when it is sent and with which fields |
| FormChecks.SignUpSendsOnlyValid | frontend/src/pages/RegisterPage.js:49-60 | a sign-up request is sent iff the checks pass, with the fields as typed |
| FormChecks.CheckLogin | frontend/src/pages/LoginPage.js:17-32 | the form passes iff the email has "@" and "." and the password has at least 6 characters; each message is set iff its field fails |
| FormChecks.LoginSubmit | frontend/src/pages/LoginPage.js:34-40 | the request `handleSubmit` sends, or none; LoginSendsOnlyValid states when it is sent and with which fields |
| FormChecks.LoginSendsOnlyValid | frontend/src/pages/LoginPage.js:34-40 | a login request is sent iff the checks pass, with the fields as typed |
| FormChecks.SignUpPasswordPassesLogin | frontend/src/pages/RegisterPage.js:16-18 | every password accepted at sign-up is long enough to log in |
| FormChecks.LoginRedirect | frontend/src/pages/LoginPage.js:46-52 | admins go to /admin, business owners to /business-owner, everyone else to / |

## Left out

- The restaurant controller is not part of this model. This covers restaurant creation with uploads, search, listing, update, and the owner's request-delete transition. `Lifecycle.Store.Insert` stands in for creation. The dashboard's `handleRequestDeletion` is only an HTTP call.
- backend/models/User.js is not part of this model. The user record's fields are inferred from the controllers.
- `isUuid` in the review controller is a UUID generator, not a check. It never rejects, so review ids are a fresh-id parameter.
- Password hashing and comparison, JWT signing and decoding, SHA-256, random tokens, UUIDs, the clock and `validator.isStrongPassword` are function or value parameters. Their own behaviour is outside the program.
- E-mail transport, S3 and HTTP requests are outcome parameters (`mailOk`, `OwnerMail`, `ok`, `fetched`, `Result`-returning functions). Network errors beyond the modelled 500 replies are left out.
- The database is in memory: Sequelize wiring, routes, transactions, constraint errors beyond those modelled, and concurrent requests are left out.
- Lifecycle.AverageRating: the average is the exact ratio total/count, not `toFixed(1)`, because floating-point rounding is not modelled.
- OwnerDashboard.ParseMenu: prices stay as text and `parseFloat` is not modelled, because floating point is not modelled.
- FormChecks.ValidPassword and FormChecks.CheckLogin count characters, while JavaScript counts UTF-16 code units. Lengths differ only for characters outside the Basic Multilingual Plane.
- Records.CreateRestaurant: an explicit null for `ratingsCount`, `totalRatings`, `openAllDays`, `sameHoursAllDays` or `id` is treated as undefined and gets the default. Sequelize fills a default only for an undefined value, so it would store NULL in these columns. Stored counters and flags are never NULL in this model. Only `status` tells null from undefined, and a null status is refused.
- Lifecycle.Store.CreateReview: a rating sent as text or as a fractional number is not modelled; the rating is a number, null or absent. Text such as "3" would pass the range test and make `totalRatings += rating` at backend/controllers/reviewController.js:45 concatenate.
- Lifecycle.Store.PendingRestaurants: the selected `workingHours`, `mapLocation` and `createdAt` attributes are not carried in the rows, because the JSON columns and timestamps are not modelled. The admin panel's `AdminPanel.Panel` holds its pending list as whole restaurants.
- Lifecycle.Store.GetReviewsForRestaurant: the populated author (`include: User`) is not modelled; reviews are returned as stored.
- Accounts.UserTable.UpdateUserProfile: no password-change notice is recorded. The notice calls an undefined `sendEmail` at backend/controllers/userController.js:69, and the error is caught and only logged, so no notice is ever sent and the reply does not change.
- JSON key order, URL encoding, map coordinates and geocoding, file contents (parts carry file names), `fetchOwnerRestaurants`, `getUserProfile` and all rendering are left out.
- The admin panel's actions read the list state at the time of the call, as a sequential state machine; React's batching and stale closures are left out.
- Where the prose description of the system and the code differ, the code is followed. After a restaurant is deleted, listing its reviews replies 404, not an empty list. Deleting a review leaves the rating accumulators unchanged.

## Findings

| source | as written | input that shows it | evidently intended | confidence | as-written member | corrected member |
|---|---|---|---|---|---|---|
| backend/controllers/authController.js:231 | approve-delete proceeds only when `restaurant.deleteRequested` is truthy, but backend/models/Restaurant.js declares no such attribute | a restaurant whose status is delete_requested gets 400 "Delete not requested for this restaurant.", so no restaurant is ever deleted this way | proceed when status is delete_requested | not executed | Lifecycle.ApproveDeleteAsWrittenRefusesRequestedRows, Lifecycle.Store.ApproveDelete | Lifecycle.Store.ApproveDeleteIntended |
| backend/controllers/authController.js:226-229 | the owner is read from the row before the null check, so a missing id throws | an id with no restaurant gets 500 "Failed to approve deletion." | 404 "Restaurant not found." | not executed | Lifecycle.ApproveDeleteCheckAsWritten | Lifecycle.ApproveDeleteCheckIntended |
