# Verified model of the used-book inspection backend

This project models, in Dafny, how the backend inspects a returned book and what follows from the inspection, and
proves what every list of defects, every answer of the models, every interleaving of deliveries and every history of
events keeps. The models (vision, detection, critic, restock) are oracles: they may answer anything of the right type
or fail. Loops and objects that the program updates in place are methods and classes proved against specification
functions; the laws are lemmas about those functions.

## What is modelled

- **Scoring** (`UbciMatrix`, `Defects`, `Codes`, `EdgeWear`, `WornCovers`, `Bags`, `Scoring`, `ScoringLaws`, `Pricing`). The
  policy agent's loop with its first-seen flags, two capped groups, early end at a fatal defect, 1.5 weighting and the
  charges it writes into every defect. `Score` is an order-free closed form; the loop is proved equal to it. The laws about
  it are in terms of what is reported: coordinates, percentages and points.
- **Boxes** (`Geometry`, `Sorting`, `Fusion`, `FusionLaws`, `Grounding`, `GroundingLaws`). Three copies of intersection over
  union, weighted boxes fusion, and the detection of invented coordinates. The program decides "evenly spaced" by sorting; the specification is a line of
  points, and both are proved to agree.
- **Vision** (`Vision`, `VisionAgent`, `VisionLaws`, `Readings`). What one reading becomes: normalised boxes, scribbles of inner
  pages, adopted candidates, sources of confidence, marks, and the evidence check.
- **The inspection graph** (`Decisions`, `Inspection`, `InspectionRun`, `InspectionLaws`, `StoredResults`,
  `Checkpoints`, `UnreadBooks`, `Coverage`). Detector, vision, policy, critic and supervisor with the retry loop, the two ends, and
  the wrapper that turns the final state into APPROVE, REJECT or HITL. `InspectionGraph` is the thread of one job: its
  fields are the state entries, and a later call finds them as the last one left them. `Run` is the meaning of one call
  from an arbitrary checkpoint.
- **Overlay data** (`Coordinates`). Boxes grouped by shot.
- **The queue worker** (`Delivery`, `DeliveryLaws`, `Worker`, `WorkerLaws`, `DeadLetters`, `Sweeper`). `Delivery` is a
  protocol of interleaved statements with a clock, a lease lock, duplicates, losses, crashes, retries, the sweeper and
  the admins. `Worker` is `process_inspection` with its try, except and finally blocks, and every undisturbed delivery
  is proved to be a run of that protocol. The nodes of the graph and the blocks of the worker have contracts of their own;
  the table names what they add up to. The dead letter list and the sweeper's query are separate objects.
- **Seeds and restocking** (`SeedCatalog`, `Restock`, `RestockLaws`). The generator that works back from a grade, and
  the board of order proposals over any history of triggers and admin requests.

## What the proofs found

Each of these is proved, with the exact condition where the code does meet the property.

1. "Not inspected" is kept apart from "inspected, no flaw" if and only if a vision model is configured and the batch
   has an image (`RuleNeedsModelAndImages`). Otherwise every book is approved: at 100 points with a refund where no wear
   candidate of the detector is adopted, with 85 or more where one is (`UnreadBookIsApproved`; `UnreadBook` says the same
   for candidates that the detector cannot produce).
2. The graph keeps one checkpoint per job for as long as its process lives, and the input of a later call overwrites
   only part of it (app/ai/supervisor.py:206-211, app/ai/langgraph_wrapper.py:31-62). What holds from every checkpoint is
   proved from every checkpoint. What does not has its exact condition, for a configured model and a batch with an image
   (the lemmas also say what holds elsewhere):
   - only approvals are stored with a refund, if and only if the checkpoint holds no refund flag
     (`RefundsAreApprovalsIff`, `ReinspectedMintKeepsRefund`);
   - the unverified mark speaks of this run, if and only if the checkpoint does not hold it (`UnverifiedIsThisRunIff`);
   - the trace is this run's, if and only if the thread is new (`TraceOfRun`);
   - a second pass reads afresh, and dismissals rest on what was seen, if and only if no interrupted run left its failure
     mark (`RetryCanRead`, `DismissalsHoldUpIff`, `WaveringRun`). Completed runs leave none (`StoredMarks`); a call that
     is interrupted between its reading and the critic leaves one if and only if that reading failed
     (`InterruptedCallIff`).
3. The stored decision follows the matrix's verdict on the score, with two exact exceptions: the vision model's mint
   flag approves any score that is not sent to a human, even 0, and without the flag 67 to 69 points are refused though
   the matrix approves from 65 (`DecisionFollowsScore`, `MintFlagApprovesSoakedBook`, `SixtyEightPointsAreRefused`).
4. A stored result never says that the reading failed, and its reason is only OK or AWAITING_HUMAN_REVIEW
   (`StoredMarks`). So the history of escalations, which is to keep why a book was handed over, never does
   (`EscalationsNameNoCause`).
5. The lock's lease of 300 s is shorter than the hard limit of 360 s. Within their leases two deliveries never overlap;
   one whose models are slow can approve a job that a faster one refused meanwhile, or put the item of a job that waits
   for a human into stock. The sweeper's second message is enough for it (`AtMostOneInLease`,
   `SlowDeliveryActsOnDecidedJob`). The soft limit of 300 s (app/core/celery_app.py:34) does not prevent it: raised while
   the delivery waits for a model, it is swallowed by the broad handlers around the model calls.
6. The HITL lock protects a delivery, not a job. A job that waits for a human is safe from automatic approval if and only
   if no message without the flag is queued, being delivered or unacknowledged. A sweep while the job waited for its first
   delivery leaves such a message, a sweep after a re-inspection sends one, and so does the retry of the inbound screen
   (`SafeIffNoPlainMessage`, `FirstEscalationIsSafe`, `SweptEscalationIsApproved`, `WaitingWhileDelivered`,
   `ReinspectedJobCanBeApproved`, `InboundRetryUnlocks`).
7. The HITL lock clears the refund flag of the answer, but not the copy in its logs, and only the logs are saved
   (`StoredRefundsOfOthers`, `LockedMintIsStoredWithRefund`).
8. While deliveries act within their leases and no person intervenes, the result of a finished job is changed exactly by
   a status read that raises, an event that cannot be published after the save, or a flagged delivery; the first two mark
   it as failed (`FinishedJobStep`, `DuplicateIsSkipped`).
9. The save keeps the status of a job that waits for a human, but the delivery has itself overwritten that status
   before (`OwnWaitingStatusIsNotKept`).
10. A failing message waits 1, 2 and 4 seconds; the comment at app/worker/tasks.py:797 says 2, 4 and 8 (`FailingJob`).
11. A dead letter setting of 0 keeps every letter, a negative one none (`PushRetains`).
12. Rejections add up on the waiting card only as long as no other trigger writes it: the shortage trigger of
    app/domains/orders/picking.py does not skip books with a waiting card and forgets the rejections before it
    (`OtherTriggerKeepsRejectionsIff`, `ShortageForgetsRejections`).
13. A reported ratio is not always the worse report: one without is read as the area of its box, or as 5 percent. It never
    raises the score if and only if its tier is not below that one (`RatioNeverRaisesIff`); larger levels, page counts and
    scribbles over text never do (`WorseReportNeverRaises`).
14. A corner seen on both covers counts once, if and only if its box is not centred exactly; then it counts as a left and a
    right one (`SameCornerFromBothSides`, `CentredIsCountedTwice`).
15. A box that points before the first shot makes the overlay raise after the graph has decided; such a result was
    always meant for a human and becomes a failed job instead (`BuildDefectCoordinates`, `AutomaticResultsCanBeDrawn`).

## Model

| member | source | states |
|---|---|---|
| `UbciMatrix.GradeTablesAgree` | app/core/ubci_matrix.py:147-166 | the matrix's grades and the stored-grade helper draw the same boundaries, and a score is approved exactly when it has a grade |
| `UbciMatrix.ClampedScoreReadsAsGrade` | app/models/wms.py:41-57 | a score clamped to a human-confirmed grade reads back as that grade, clamping twice changes nothing, and no score of the grade is nearer |
| `Defects.RoundTenThousandths` | app/ai/agents/policy.py:25-52 | rounding of the derived area is to nearest, ties to even |
| `EdgeWear.EdgeWearProfile` | app/ai/agents/policy.py:55-115 | the nested loops compute the set of worn corners (a row seen only from the side counts once, and is absorbed by a cover corner of the row) and the largest ratio |
| `EdgeWear.MoreWearMoreCorners` | app/ai/agents/policy.py:79-115 | more active wear never lowers the number of worn corners, absorption included |
| `EdgeWear.OneMoreDetection` | app/ai/agents/policy.py:79-115 | one more detection adds a corner exactly when it shows a new cover corner in a row not known only from the side, or a row where nothing was worn |
| `Scoring.ScoreOne` | app/ai/agents/policy.py:448-653 | one turn of the loop: dismissed defects cost nothing, the first wear and the first workbook scribble pay for their group, a fatal defect ends the loop |
| `Scoring.ScoreEach` | app/ai/agents/policy.py:438-653 | the loop stops at the first fatal defect and nowhere else; until then the tally is that of the defects seen and every one is charged as specified |
| `Scoring.ScoreDefects` | app/ai/agents/policy.py:434-685 | the whole loop with its early end yields the order-free score, the total and sum of items, the unverified mark, and the specified charges; what the score is in coordinates and points is stated in `Pricing` |
| `Scoring.SpreadWearDeduction` | app/ai/agents/policy.py:655-666 | exactly the members of the wear group that are not excluded get the group's value |
| `ScoringLaws.MoreEvidenceLowerScore` | app/ai/agents/policy.py:448-675 | whatever list has at least the active defects of another scores no higher: the score is antitone in evidence |
| `ScoringLaws.AddingADefect` | app/ai/agents/policy.py:448-675 | inserting any defect anywhere never raises the score |
| `ScoringLaws.RestoringADefect` | app/ai/agents/policy.py:459-464 | withdrawing a dismissal never raises the score |
| `ScoringLaws.ScoreIgnoresOrder` | app/ai/agents/policy.py:448-675 | every permutation of the defects has the same score |
| `ScoringLaws.ZeroTotalMeansAllDismissed` | app/ai/agents/policy.py:459-653 | without a fatal defect nothing is deducted exactly when every defect was dismissed |
| `ScoringLaws.PerfectScore` | app/ai/agents/policy.py:668-685 | the score is within 0..100, and 100 exactly when every defect was dismissed |
| `ScoringLaws.UnverifiedIsDismissedPerfect` | app/ai/agents/policy.py:679-685 | the unverified mark is exactly "defects were reported and the score is 100" |
| `ScoringLaws.CapsKeepTheBook` | app/ai/agents/policy.py:482-533 | however many detections: wear alone keeps 85 points, workbook scribbles alone leave exactly 85, both keep 70, and the book is never rejected by the matrix |
| `ScoringLaws.ChargesAccountForTotal` | app/ai/agents/policy.py:482-666 | single charges one by one and each group once add up to the total deduction |
| `ScoringLaws.GroupValuesShown` | app/ai/agents/policy.py:459-464 | every group member shows the value of its group, and a dismissed defect shows 0 and is excluded |
| `ScoringLaws.ChargingKeepsReport` | app/ai/agents/policy.py:448-666 | scoring changes nothing in a defect but its charge |
| `Codes.KindOfText` | app/ai/agents/policy.py:468-630 | a type string is of the first branch of which it has a word, over the table of all words, and of none without any |
| `Pricing.ShownRatio` | app/ai/agents/policy.py:25-52 | a proper box without a reported ratio shows its area (xmax - xmin) * (ymax - ymin) in whole percent of the frame, to the nearest, ties to even, at least 1; without a proper box the default is shown |
| `Pricing.AreaCountsAsReported` | app/ai/agents/policy.py:25-52 | in every book, a defect with a box and no ratio scores as with the area of the box reported |
| `Pricing.NoAreaCountsAsFive` | app/ai/agents/policy.py:25-52 | and without a proper box as with 5 percent reported, wear with 1 |
| `Pricing.AsBadScoresNoHigher` | app/ai/agents/policy.py:448-675 | two lists whose defects are pairwise the same but reported no better in the second: the second scores no higher |
| `Pricing.WorseReportNeverRaises` | app/ai/agents/policy.py:448-653 | in no book does a larger level or page count, scribbles over text, or a ratio whose tier is no lower raise the score |
| `Pricing.RatioNeverRaisesIff` | app/ai/agents/policy.py:25-52 | for kinds with three tiers a newly reported ratio never raises the score of any book if and only if its tier is not below the one shown without it |
| `Pricing.PriceOfOne` | app/core/ubci_matrix.py:64-129 | a book with one counting defect loses the listed price of its kind in points, by area, level or pages, half as much again over text, all of them for a soaked book or a binding of 15 percent |
| `Pricing.PricesAddUp` | app/ai/agents/policy.py:448-675 | a book without wear, and without scribbles if it is a workbook, loses the sum of these prices, down to 0 |
| `Pricing.ScoresAddUp` | app/ai/agents/policy.py:448-675 | of two lists that share no group each takes from a book what it takes alone, fatal defects included |
| `Pricing.WornBookScores` | app/core/ubci_matrix.py:107-111 | a book with wear alone loses 3, 5 or 10 points by its largest area and 2 for every further corner, at most 15 |
| `Pricing.ShownCharges` | app/ai/agents/policy.py:459-653 | without a fatal defect every defect outside the groups shows its listed price, a workbook's scribble 15, a dismissed defect 0 |
| `Pricing.NoChargeAfterFatal` | app/ai/agents/policy.py:466-480 | a fatal defect ends the charging: neither it nor a fresh defect after it shows any |
| `WornCovers.BoxesAreWhereTheyLie` | app/ai/agents/policy.py:88-108 | a box in the upper, middle or lower third counts in that row, a half decides the side, left and right swapped on the back cover, and other shots show no side |
| `WornCovers.SecondViewAddsNothing` | app/ai/agents/policy.py:97-113 | in every book the second view of a part, through the other cover, adds no corner |
| `WornCovers.SameCornerFromBothSides` | app/ai/agents/policy.py:101-105 | two mirrored views are one corner if and only if the box is not centred exactly |
| `WornCovers.CentredIsCountedTwice` | app/ai/agents/policy.py:101-105 | a centred part seen on both covers counts as two corners |
| `WornCovers.LargestArea` | app/ai/agents/policy.py:78-86 | the largest ratio of the profile is attained by undismissed wear of the list and exceeded by none |
| `WornCovers.CountedByItsWord` | app/ai/agents/policy.py:79-84 | the profile counts exactly the undismissed defects whose type names wear, soaked ones included |
| `Geometry.IouLaws` | app/ai/wbf_detector.py:305-323 | the overlap of float boxes is symmetric, within 0..1 for every box, inverted ones included, and 1 only for identical proper boxes |
| `Geometry.BboxIouLaws` | app/ai/agents/vision.py:969-998 | the same for reported boxes, whatever is missing or inverted |
| `Geometry.IousAgree` | app/ai/agents/vision.py:285-292 | in exact arithmetic the three implementations agree on every pair of integer boxes, inverted ones included |
| `Geometry.OverlapInARow` | app/ai/wbf_detector.py:305-323 | two boxes of one row that overlap: their overlap is to 1 as the common width is to the whole stretch |
| `Geometry.OverlapTransposed` | app/ai/wbf_detector.py:305-323 | columns behave as rows |
| `Geometry.OverlapInside` | app/ai/wbf_detector.py:305-323 | of a box inside another the overlap is the ratio of the areas |
| `Geometry.NoOverlapBeside` | app/ai/wbf_detector.py:305-323 | boxes beside each other overlap by 0 |
| `Fusion.CollectBoxes` | app/ai/wbf_detector.py:342-360 | the nested loops compute the specified list of boxes; which detections are in it is stated by `FusionLaws.CollectedTimes` |
| `Fusion.SortedByScoreSorts` | app/ai/wbf_detector.py:365-366 | sorting keeps the boxes and makes scores non-increasing |
| `Fusion.ClusterBoxes` | app/ai/wbf_detector.py:368-380 | the in-place clustering with its inner break computes the specified clusters |
| `Fusion.ClustersPartition` | app/ai/wbf_detector.py:368-380 | every box lands in exactly one cluster: none is lost, doubled or invented |
| `Fusion.ClusteringIsGreedy` | app/ai/wbf_detector.py:368-380 | every member has its seed's label and overlaps it by the threshold; seeds of one label are pairwise below it |
| `Fusion.BestSeedsFirst` | app/ai/wbf_detector.py:365-380 | a seed has the best score of its cluster, and seeds come in descending order |
| `Fusion.WeightedBox` | app/ai/wbf_detector.py:393-398 | the accumulating loop yields the weighted average of every coordinate |
| `Fusion.BestScore` | app/ai/wbf_detector.py:400-401 | the best score is a member's and no member has a better one |
| `Fusion.WeightedBoxesFusion` | app/ai/wbf_detector.py:326-411 | the fused boxes are the weighted averages of the clusters with their best score and label, for positive weights |
| `Fusion.AverageInHull` | app/ai/wbf_detector.py:393-398 | a fused coordinate lies between the least and the greatest of its members |
| `Fusion.FusedBoxInImage` | app/ai/wbf_detector.py:393-405 | members inside the image with ordered corners fuse to such a box |
| `Fusion.FusedScoresDescend` | app/ai/wbf_detector.py:400-405 | each fused score is its seed's, and fused scores never increase |
| `Fusion.FusionPartitions` | app/ai/wbf_detector.py:342-380 | the clusters contain each box at or above the skip threshold once and nothing else |
| `Fusion.FusionStaysInImage` | app/ai/wbf_detector.py:342-411 | if all detections are proper boxes inside the image, so are all fused boxes, for all positive weights and all thresholds |
| `FusionLaws.CollectedTimes` | app/ai/wbf_detector.py:349-360 | a detection is collected exactly as often as its model reports it if its score reaches the threshold, and not at all otherwise |
| `FusionLaws.DetectionsArePartitioned` | app/ai/wbf_detector.py:342-380 | so often it is in the clusters of the whole fusion: every detection at or above the threshold in one cluster, no other in any |
| `FusionLaws.ClustersByOverlap` | app/ai/wbf_detector.py:368-380 | in labels and overlaps: a member has the label of its seed and overlaps it by the threshold, and no seed before it |
| `FusionLaws.FusedScoresAreDetected` | app/ai/wbf_detector.py:400-405 | every fused box has the score and label of a detection at or above the threshold |
| `FusionLaws.AverageIsALever` | app/ai/wbf_detector.py:393-398 | one more box moves the average towards itself by the weight of its model against the weight of the others |
| `FusionLaws.FusedBetweenTwo` | app/ai/wbf_detector.py:393-398 | two boxes fuse to one whose corners divide the way between them in the ratio of their models' weights |
| `Grounding.FlagUngroundedBboxes` | app/ai/agents/vision.py:141-226 | marks exactly the boxes owned by the vision model that repeat across shots, line up evenly with boxes of their size, or cover the frame; changes nothing else, and returns the number marked |
| `Grounding.FlagFullFrame` | app/ai/agents/vision.py:178-188 | flags exactly the owned local defects that cover 88 % of the frame |
| `Grounding.FlagRepeated` | app/ai/agents/vision.py:196-202 | flags exactly the owned defects whose box is repeated in another shot |
| `Grounding.FlagProgressions` | app/ai/agents/vision.py:204-221 | flags exactly the owned defects whose size group lies evenly spaced on a line |
| `Grounding.SortedStepsDecide` | app/ai/agents/vision.py:212-221 | equal steps between the sorted corners say exactly that the corners form a line of evenly spaced points, whichever end one starts from |
| `Grounding.MarksIgnoreOrder` | app/ai/agents/vision.py:141-226 | which boxes are invented does not depend on the order of the report |
| `GroundingLaws.MeasuredBoxesStay` | app/ai/agents/vision.py:156-165 | a measured, adopted or missing box comes back as it is |
| `GroundingLaws.RepeatedBoxesAreMarked` | app/ai/agents/vision.py:196-202 | two guessed boxes with equal coordinates in different shots both come back marked |
| `GroundingLaws.FullFrameIsMarked` | app/ai/agents/vision.py:172-188 | a guessed box of 88 percent of the frame comes back marked, even alone, unless the page is soaked or discoloured |
| `GroundingLaws.LinedUpBoxesAreMarked` | app/ai/agents/vision.py:204-221 | if the guesses of one size take three or more places at even distances and no other, they all come back marked |
| `GroundingLaws.MarksHaveAGround` | app/ai/agents/vision.py:141-226 | and a box is newly marked only if it is a guess on one of these three grounds |
| `VisionLaws.NormalizedBoxIsOrdered` | app/ai/agents/vision.py:351-363 | each axis with both limits ends up in order, an axis that lacks one is left alone, and doing it twice changes nothing |
| `VisionAgent.AddDoodles` | app/ai/agents/vision.py:445-535 | the hits in readable shots, and only they, join the defects in order |
| `VisionAgent.AdoptCandidates` | app/ai/agents/vision.py:540-571 | the loop adopts exactly the wear candidates whose box is not already there, each seeing the ones before it |
| `VisionAgent.FindBestMatch` | app/ai/agents/vision.py:616-622 | the running maximum over the hints is the specified best match and its overlap |
| `VisionAgent.SettleSources` | app/ai/agents/vision.py:595-633 | the two loops over defects and hints mark copied confidences and settle every source as specified |
| `VisionAgent.MarkFlatReport` | app/ai/agents/vision.py:636-648 | two or more equal self-reported confidences mark every defect that is not measured |
| `VisionAgent.VerifyDefects` | app/ai/agents/vision.py:846-966 | every defect gets its status, and the suspects are exactly the judged ones that the verdict dismisses |
| `VisionAgent.CheckEvidence` | app/ai/agents/vision.py:665-676 | the suspects of the check, and only they, are marked as dismissed |
| `VisionAgent.Look` | app/ai/agents/vision.py:410-683 | a vision step yields nothing exactly when it had to read and the model failed, and otherwise the specified outcome |
| `VisionLaws.ScreeningKeepsReports` | app/ai/agents/vision.py:592-683 | the checks after the reading remove, add and move no defect and keep what was reported |
| `VisionLaws.DismissalsAreWitnessed` | app/ai/agents/vision.py:867-947 | a deduction is lifted only for a grounded box in a shot of the batch that was judged on its crop |
| `VisionLaws.BestMatchIsACandidate` | app/ai/agents/vision.py:614-622 | the best match is a hint of the same shot that no other hint of that shot overlaps better |
| `VisionLaws.MeasuredConfidence` | app/ai/agents/vision.py:614-633 | a confidence counts as measured only with a hint of the same shot that overlaps by 0.9 and lends its confidence; conversely where every hint has one |
| `VisionLaws.ReadingLaws` | app/ai/agents/vision.py:573-683 | after a reading no wear is reported on an inner page, nothing has been charged, and every dismissal is witnessed |
| `Readings.DefectsHaveOrigins` | app/ai/agents/vision.py:341-592 | after a reading every defect says what a report says, with its limits in order, or is a scribble in a shot of the batch that the answer does not list as unreadable, or an adopted wear candidate; none is wear in the fourth shot or later |
| `Readings.ReportsAreStored` | app/ai/agents/vision.py:341-592 | and every report but such wear is there, and every such scribble |
| `Readings.ReportsComeInOrder` | app/ai/agents/vision.py:341-535 | a reading's list begins with the reports in their order with their confidences, then come scribbles; nothing is marked, checked or charged yet |
| `Readings.OthersStayInOrder` | app/ai/agents/vision.py:573-592 | leaving out wear of inner pages keeps the other defects in order and number |
| `Readings.NothingAdoptedIff` | app/ai/agents/vision.py:540-571 | nothing is adopted if and only if every wear candidate with a place overlaps by half something in its shot |
| `Readings.AdoptedAreNew` | app/ai/agents/vision.py:540-571 | each adopted defect overlaps by half nothing that precedes it in its shot |
| `Readings.MintIff` | app/ai/agents/vision.py:344-571 | the mint flag is the model's own, without readable scribbles and newly adopted wear |
| `Readings.CopiedIff` | app/ai/agents/vision.py:595-660 | a confidence is marked as copied exactly if it is a hint's number, or is not measured where the model gave one number, at least twice, for everything |
| `Readings.DismissedIff` | app/ai/agents/vision.py:846-966 | a defect is dismissed exactly if it has a grounded box in a shot of the batch, is not surely measured, and the verdict on it is no, or undecided under the setting; each verdict gives its status |
| `Inspection.StageA` | app/ai/agents/critic.py:21-80 | the issue list contains each issue exactly when its fact is broken, and is empty exactly when all facts agree |
| `Inspection.SentBack` | app/ai/agents/critic.py:95-271 | only the critic sends a book back: it counts one of two retries, and the book has no defects or had no score, and no failure mark of its own |
| `InspectionRun.InspectionGraph.VisionAgentStep` | app/ai/agents/vision.py:391-414 | the node updates the state object as specified; a failed reading empties the defects and sets the failure mark |
| `InspectionRun.InspectionGraph.PolicyAgentStep` | app/ai/agents/policy.py:380-685 | the node leaves a failed reading without a score, and otherwise stores charges, score and unverified mark |
| `InspectionRun.InspectionGraph.CriticAgentStep` | app/ai/agents/critic.py:83-311 | the branch chain of the critic, with the issue list decided by Stage A, updates the state as specified |
| `InspectionRun.InspectionGraph.TakeInput` | app/ai/langgraph_wrapper.py:31-62 | the input of a call overwrites five of the entries that decide anything and leaves the refund flag, the marks, the unreadable shots and the trace of the checkpoint |
| `InspectionRun.InspectionGraph.Invoke` | app/ai/supervisor.py:151-211 | from every checkpoint and for every oracle the graph terminates, and its final state and decision are those of the specified run |
| `InspectionLaws.RetryCanRead` | app/ai/agents/critic.py:130-151 | a book that is sent back is read afresh exactly unless the checkpoint held a failure mark and the first reading found defects; then these go on unread and uncharged |
| `InspectionLaws.RunHasOneOrTwoPasses` | app/ai/supervisor.py:109-129 | every run is one or two passes and an end, and the critic never meets a used-up count |
| `InspectionLaws.TraceOfRun` | app/ai/state.py:139 | the trace is the one of the checkpoint, then the detector, one or two full blocks of four agents, and a report exactly when the book is not left to a human; it is the run's own exactly on a new thread |
| `InspectionLaws.AutomaticDecisionsAreBacked` | app/ai/langgraph_wrapper.py:65-85 | from every checkpoint an automatic decision has a successful reading of this run that leaves a shot readable (the last one, unless a failure mark was left over), a score outside 58..66, no Stage A issue on the final defects, and no defects exactly at 100 points |
| `Coverage.AutomaticMeansSomeShotRead` | app/ai/supervisor.py:66-111 | an automatic decision on a batch that a model reads has a shot of the batch that the list in the model's answer does not contain |
| `Coverage.UnreadableBatchIsEscalated` | app/ai/supervisor.py:85-111 | a reading that lists every shot of the batch leaves the book to a human without score, mint flag and refund |
| `Coverage.CountIsCoverage` | app/ai/agents/vision.py:365-372 | the count of unreadable shots reaches the size of the batch exactly if the answer lists all of it, whatever else it lists |
| `Coverage.ShotsOutsideDoNotMatter` | app/ai/agents/vision.py:365-372 | listed shots outside the batch, order and repetition never change the result of a run |
| `Coverage.EscalatedIff` | app/ai/langgraph_wrapper.py:65-85 | a run goes to a human exactly if its last pass has no score, 58 to 66 points, a defect without a box, outside the batch, copied or invented, full points with defects or less without, a verdict of unsoundness, or no readable shot |
| `InspectionLaws.StoredMarks` | app/ai/langgraph_wrapper.py:88-162 | a stored result never carries the failure mark, and its reason and decision say only whether a human has to look |
| `InspectionLaws.NoScoreMeansNotInspected` | app/ai/agents/report.py:282-308 | a run ends without a score exactly when its last pass asked for a reading that failed, or no shot was readable |
| `InspectionLaws.UnverifiedOfRun` | app/ai/agents/policy.py:679-685 | the stored unverified mark of a scored book is exactly "reported defects at 100 points"; without a score it is an earlier run's; with it the book always goes to a human |
| `Checkpoints.UnverifiedIsThisRunIff` | app/ai/langgraph_wrapper.py:254-263 | the mark speaks of this run for all answers of the models, if and only if the checkpoint does not hold it, or no model reads at all |
| `InspectionLaws.RefundsOfRun` | app/ai/agents/report.py:294 | the final refund flag is exactly an approval of a mint-flagged book at 95 points or more, or the flag of the checkpoint on a book left to a human with a readable shot |
| `Checkpoints.RefundsAreApprovalsIff` | app/ai/langgraph_wrapper.py:254-263 | for all candidates that the detector can find and all answers of the models only approvals are stored with a refund, if and only if the checkpoint holds no refund flag, or no model reads at all |
| `Checkpoints.ReinspectedMintKeepsRefund` | app/ai/supervisor.py:206-211 | a mint approval inspected again by failing models is stored for a human with the refund flag set and the trace of both runs |
| `InspectionLaws.DecisionFollowsScore` | app/ai/langgraph_wrapper.py:70-85 | an automatic decision agrees with the matrix exactly when a mint-flagged book has 58 points or more, or an unflagged one is not at 67..69 |
| `UnreadBooks.UnreadBook` | app/ai/agents/vision.py:410-414 | without a model or images, for every checkpoint and every candidate: approved with at least 85 points, at 100 exactly if no wear candidate is adopted on a cover, with a refund exactly if none is adopted at all; left to a human exactly for an adopted box outside the batch, or where the critic objects to adopted boxes |
| `UnreadBooks.UnreadBookIsApproved` | app/ai/agents/detector.py:48-68 | with the candidates that the detector can find every such book is approved with at least 85 points, at 100 and with a refund exactly if no wear candidate is adopted; with adoption off or no image none is |
| `UnreadBooks.AdoptionCovers` | app/ai/agents/vision.py:540-571 | adoption leaves a defect in the shot of every adoptable candidate and adds none without one |
| `UnreadBooks.RuleNeedsModelAndImages` | app/ai/supervisor.py:82-85 | from every checkpoint nothing is decided automatically that was not inspected, if and only if a model is configured and the batch has an image |
| `StoredResults.StoredDismissalsAreWitnessed` | app/ai/langgraph_wrapper.py:88-162 | without a leftover failure mark every stored dismissal rests on a spot that was seen |
| `Checkpoints.DismissalsHoldUpIff` | app/ai/agents/vision.py:671-676 | all stored dismissals are witnessed for all answers of the models, if and only if the checkpoint holds no failure mark, or no model reads at all |
| `Checkpoints.WaveringRun` | app/ai/agents/vision.py:867-947 | with the mark, a spot that the second check confirms stays dismissed |
| `Checkpoints.InterruptedCallIff` | app/ai/agents/vision.py:391-414 | the state that a call leaves when it is interrupted after vision or after policy breaks the promise for the next call if and only if its reading failed and the next call reads |
| `StoredResults.StoredChargesAccountForScore` | app/ai/langgraph_wrapper.py:88-162 | the charges stored with an automatic decision explain its score, down to 0 points; only a fatal defect takes everything without a sum |
| `StoredResults.AutomaticResultsCanBeDrawn` | app/ai/langgraph_wrapper.py:164-230 | the overlay of an automatic decision never raises and shows photographed shots only |
| `StoredResults.MintFlagApprovesSoakedBook` | app/ai/langgraph_wrapper.py:78-79 | a soaked book that is also called mint is scored 0 and approved |
| `StoredResults.SixtyEightPointsAreRefused` | app/ai/langgraph_wrapper.py:81-85 | a book at 68 points is approved by the matrix and refused by the wrapper |
| `Coordinates.BuildDefectCoordinates` | app/ai/langgraph_wrapper.py:164-230 | shots ascend, each with exactly its boxes in order and its address; every box is drawn once; it raises exactly when a box points before the first shot |
| `Coordinates.BoxesInOrder` | app/ai/langgraph_wrapper.py:176-228 | the boxes of a shot come in the order of the defects, however the list is divided |
| `Coordinates.BoxOfOne` | app/ai/langgraph_wrapper.py:176-190 | a defect is drawn on the shot it names, and on the first if it names none |
| `Coordinates.Group` | app/ai/langgraph_wrapper.py:175-228 | the dictionary filled in place holds, for each shot with a box, its boxes in order and its address; filling it fails exactly at a box before the first shot |
| `Coordinates.SortedKeys` | app/ai/langgraph_wrapper.py:230 | the same keys in strictly ascending order |
| `Coordinates.EveryBoxIsDrawnOnce` | app/ai/langgraph_wrapper.py:176-230 | over ascending indices that cover every boxed defect the groups hold each box once |
| `DeliveryLaws.SafeKept` | app/worker/tasks.py:579-835 | every statement of every delivery and every event around it keeps the hard limit, the lease exclusive, prepared jobs touched and the flag respected |
| `DeliveryLaws.LeaseHeldKept` | app/worker/tasks.py:579-588 | every step keeps: a delivery within its lease holds the lock |
| `DeliveryLaws.TouchedKept` | app/worker/tasks.py:612-624 | every step keeps: a prepared delivery began no later than the job's last update |
| `DeliveryLaws.FlagRespectedKept` | app/worker/tasks.py:688-710 | every step keeps: no delivery with the flag is about to approve |
| `DeliveryLaws.SafeAlways` | app/worker/tasks.py:579-835 | so do all interleavings of any length |
| `DeliveryLaws.AtMostOneInLease` | app/worker/tasks.py:575-585 | in every reachable state at most one delivery of a job is within its lease |
| `DeliveryLaws.OutlivedLeaseAdmitsAnother` | app/core/celery_app.py:34-35 | once the lock has lapsed every delivery has outlived its lease, and the next message gets in beside it |
| `DeliveryLaws.SweptJobHasNoPreparedRun` | app/worker/tasks.py:474-490 | a PROCESSING job that the sweeper takes has no delivery past its preparation (480 s exceed the 360 s limit), and any live one began more than 120 s after the last update of the job |
| `DeliveryLaws.SweptJobCanHaveALiveRun` | app/worker/tasks.py:474-490 | such a delivery occurs: a message restored just before the sweep is being delivered, and the sweeper sends another |
| `DeliveryLaws.GuardHoldsKept` | app/worker/tasks.py:594-607 | while deliveries act within their leases, whoever passed the guard without the flag works on an unfinished job |
| `DeliveryLaws.FinishedJobStep` | app/worker/tasks.py:594-607 | on a finished job an unflagged step within its lease keeps status and item, unless it raises before its guard or after its save, which makes the job failed |
| `DeliveryLaws.FinishedJobStays` | app/worker/tasks.py:588-607 | duplicates, redeliveries, sweeps, retries and crashes never change the result of a finished job |
| `DeliveryLaws.ResultStays` | app/worker/tasks.py:588-607 | the same for every job that got its result since it was accepted, by deliveries within their leases |
| `DeliveryLaws.SlowDeliveryActsOnDecidedJob` | app/worker/tasks.py:579-588 | a job whose first message waits until it is swept, then a delivery whose models take 300 s (the soft limit passes inside the model call, which swallows it) and a second one beside it: a decision other than approval, and after it an item in stock; a refused job ends approved, a waiting one goes on waiting |
| `DeliveryLaws.ApprovalsAreUnflagged` | app/worker/tasks.py:688-729 | a job becomes approved only by hand or by the save of a delivery without the flag |
| `DeliveryLaws.StockNeedsUnflagged` | app/worker/tasks.py:213-218 | an item gets into stock only by hand or by the action of a delivery without the flag |
| `DeliveryLaws.SafeIffNoPlainMessage` | app/worker/tasks.py:685-710 | an unfinished job, one that waits for a human included, can be approved without people and sweeps if and only if a message without the flag is queued, being delivered or unacknowledged |
| `DeliveryLaws.FirstEscalationIsSafe` | app/worker/tasks.py:590-607 | a job delivered at once and left to a human is safe |
| `DeliveryLaws.SweptEscalationIsApproved` | app/worker/tasks.py:473-497 | a job that waited for the sweeper first is left to a human and then approved by its second message |
| `DeliveryLaws.WaitingWhileDelivered` | app/worker/tasks.py:588-607 | and can be while no message is with the broker: the second one is being delivered |
| `DeliveryLaws.ReinspectionFlag` | app/domains/admin/service.py:675-688 | a re-inspection carries the flag exactly if the job waited for a human, was approved or was refused |
| `DeliveryLaws.PeopleKeepItemAndStatus` | app/domains/admin/service.py:497-568 | an override puts job and item where it says, a recall leaves both to a human |
| `DeliveryLaws.ReinspectionIsSweptPlain` | app/worker/tasks.py:473-497 | re-inspecting a human-owned job older than two minutes makes the next sweep queue a plain message beside the flagged one |
| `DeliveryLaws.ReinspectedJobCanBeApproved` | app/domains/admin/service.py:675-688 | and from there, whatever deliveries are live, a run without people or further sweeps approves the job |
| `DeliveryLaws.InboundRetryUnlocks` | app/domains/inbound/router.py:510-534 | the retry of the inbound screen makes any job, a waiting or finished one and one under delivery included, approvable at once |
| `Worker.InspectionWorker.Run` | app/worker/tasks.py:582-785 | what the try block does to the job by the way it ends: returned, API error, other error |
| `Worker.InspectionWorker.Conclude` | app/worker/tasks.py:684-785 | from the answer on: the HITL lock rewrites an approval, the item moves before the save, and the answer is recorded exactly if the save succeeds; where job and item end up is stated by `WorkerLaws.OutcomeFollowsAnswer` |
| `Worker.InspectionWorker.SaveResult` | app/domains/returns/job_service.py:82-162 | a waiting job goes on waiting, any other takes the final status; an escalation adds its reason to the last 20 |
| `Worker.InspectionWorker.ProcessInspection` | app/worker/tasks.py:558-835 | for every course of one delivery: the reply, the job, the queues, the lock given back, the saved answer as rewritten by the HITL lock, and the history of escalations |
| `Worker.BlocksCompose` | app/worker/tasks.py:588-835 | the try, except and finally blocks together have the effect that is stated for the delivery |
| `WorkerLaws.DeliveryIsARun` | app/worker/tasks.py:558-835 | every undisturbed delivery is a run of the protocol, whatever happens in it |
| `WorkerLaws.WorkerKeepsSafe` | app/worker/tasks.py:558-835 | and keeps every invariant of the protocol |
| `WorkerLaws.OutcomeFollowsAnswer` | app/worker/tasks.py:205-218 | a finished delivery leaves the job approved, refused or waiting as answered, an approval of a human's job waiting; with a known barcode the item is in stock exactly if the job is approved, refused exactly if it is refused, and waits exactly if it waits |
| `WorkerLaws.UnfinishedReachesNoResult` | app/worker/tasks.py:786-835 | any other delivery reaches no result, and moves the item only where its own answer says |
| `WorkerLaws.DeliveredAgrees` | app/worker/tasks.py:205-218 | the same for a delivery in the protocol |
| `WorkerLaws.RepliesTell` | app/worker/tasks.py:558-814 | each reply is given exactly under its condition: lock service down, a live lock, a finished job and a plain message, an API error with fewer than three retries (after 1, 2, 4 seconds), an announced save |
| `WorkerLaws.EscalationIsKept` | app/domains/returns/job_service.py:115-145 | an escalation is last in the history, before it the latest earlier ones in order, 20 in all; no other answer adds any |
| `WorkerLaws.DuplicateIsSkipped` | app/worker/tasks.py:594-607 | a plain duplicate of a finished job is skipped exactly when its status read does not raise or the lock is taken, and never moves the item |
| `WorkerLaws.FlaggedDeliveryNeverApproves` | app/worker/tasks.py:685-710 | a flagged delivery neither approves nor stocks, and rewrites exactly the answers that approve |
| `WorkerLaws.OwnWaitingStatusIsNotKept` | app/domains/returns/job_service.py:146-150 | the status that a delivery saves follows its answer alone, even for a job that waited for a human when it began |
| `WorkerLaws.EscalationsNameNoCause` | app/domains/returns/job_service.py:115-145 | from every checkpoint the reason that an escalation keeps is "a human has to look", or the HITL lock |
| `WorkerLaws.StoredRefundsOfOthers` | app/worker/tasks.py:691-709 | a job that is not approved is stored with a refund exactly where the lock withdrew the approval of a mint book, or a stale flag of the checkpoint survived |
| `WorkerLaws.LockedMintIsStoredWithRefund` | app/worker/tasks.py:696-703 | a mint book that a human owns goes back to the human, stored with a refund |
| `WorkerLaws.FailingMessage` | app/worker/tasks.py:791-814 | a message that keeps failing runs once more for every retry left, with doubling waits, and leaves one dead letter and a failed job |
| `WorkerLaws.FailingJob` | app/worker/tasks.py:791-814 | from the first delivery: four executions, waits of 1, 2 and 4 seconds, one dead letter |
| `DeadLetters.DeadLetterQueue.Push` | app/worker/tasks.py:64-96 | after every push the list is what is retained of everything ever pushed, in order |
| `DeadLetters.PushRetains` | app/worker/tasks.py:83-87 | append and trim turn what is retained of a history into what is retained of the longer one: the last n, all of it for 0, nothing below |
| `DeadLetters.LetterIsKeptFor` | app/worker/tasks.py:83-87 | a letter survives exactly n - 1 newer ones, and any number for 0 |
| `Sweeper.Broker.SweepStaleInspections` | app/worker/tasks.py:455-502 | the queue grows by one plain message for each abandoned row, in their order, and the count says how many |
| `Sweeper.SweptIfNeglected` | app/worker/tasks.py:476-490 | a job gets a plain message exactly when it is PENDING and was accepted more than 120 s ago, or PROCESSING and was last touched more than 480 s ago |
| `Sweeper.RequeuedOnce` | app/worker/tasks.py:491-497 | and no job gets two in one sweep |
| `Sweeper.SweepStepIsTheQuery` | app/worker/tasks.py:476-497 | the query over the ledger and the protocol's sweep step queue the same message for a job |
| `SeedCatalog.BuildDefectsForGrade` | app/scripts/seed_balanced_catalog.py:123-152 | for every pool whose fitting deductions can fill the budget and every coin: the grade is the target and the deductions sum to 100 minus the score |
| `SeedCatalog.ShuffleFillsBudget` | app/scripts/seed_balanced_catalog.py:89-107 | every shuffle of the pool can fill every budget |
| `SeedCatalog.SeedBook` | app/scripts/seed_balanced_catalog.py:123-152 | for every shuffle and every coin the book has the grade asked for, and the floor of 65 is never needed |
| `Restock.BaselineIsTheLeastCover` | app/ai/agents/restock.py:124-132 | the baseline is the least order that covers the demand and makes up for the rejected copies |
| `Restock.DemandIsTheLeastCover` | app/ai/agents/restock.py:126-129 | the demand is the least number of copies that covers 14 days at the rate of the last 30 and the safety stock |
| `Restock.UrgencyInDays` | app/ai/agents/restock.py:130-143 | the rule is critical exactly with two copies or less or under 7 days of stock, critical or high with five or under 14 days, and medium or low by whether something is to be ordered |
| `Restock.SoldOutIsCritical` | app/ai/agents/restock.py:255-284 | a sold-out book that was ever sold is critical whatever the model says; otherwise the model's word counts, and the rule without one |
| `Restock.QuantityIsClamped` | app/ai/agents/restock.py:255-284 | for every answer the quantity is in 1..ceil(1.5 * max(1, baseline)), an answer in that range is kept, and without one it is the baseline |
| `Restock.ProposalBoard.GenerateAndStore` | app/ai/agents/restock.py:292-367 | nothing is stored, the waiting card is rewritten in place, or one new card appears |
| `Restock.ProposalBoard.Decide` | app/domains/po/service.py:98-222 | a request over any list of ids, repetitions included, acts on each id as it stands when its turn comes |
| `RestockLaws.NothingToOrderIff` | app/ai/agents/restock.py:326-330 | a trigger stores something exactly if copies were rejected, or the book was ever sold and its stock does not cover 14 days and the safety stock |
| `RestockLaws.CardSays` | app/ai/agents/restock.py:331-367 | a stored card names its book, the rejected copies added up, the least order that covers demand and rejections, and the trigger, which only a rejection changes on a waiting card |
| `RestockLaws.AdminsActOnWaitingCards` | app/domains/po/service.py:98-222 | an approval orders exactly a waiting card of a known book, in its quantity; a dismissal touches only a waiting card, a deletion only another; no other card changes |
| `RestockLaws.SoundAlways` | app/ai/agents/restock.py:307-367 | after every history a book has at most one waiting card, a card is ordered at most once and exactly if approved, and every stored quantity is in its bounds |
| `RestockLaws.RejectionsAddUp` | app/ai/agents/restock.py:314-316 | rejections of a book with only rejections and other books' triggers between add up exactly on its card |
| `RestockLaws.OtherTriggerKeepsRejectionsIff` | app/ai/agents/restock.py:314-316 | another trigger keeps the outstanding rejections exactly when it stores nothing or brings as many copies itself |
| `RestockLaws.ShortageForgetsRejections` | app/domains/orders/picking.py:286-300 | two rejections and then an order three copies short leave three on the card |

## Left out

- Models and transport: vision, detection, retrieval and critic calls, image crops, S3, SQL and Redis are oracles,
  maps, sequences and multisets; image cropping in pixels, the region of interest gate, label rendering and printing
  are not part of this model.
- Text: policy, critic, supervisor and certificate prose, labels, notes, logs and notifications.
- The Stage B verdict of the return policy, currency rounding, `preliminary_deduction` and `repair_directive`.
- Classification by kind: a defect carries its kind, and `Classify` gives it by the branch order of the code on the
  type string; the model does not look at `label` when the type is empty.
- Numbers: coordinates and ratios are integers or absent, confidences count ten-thousandths, and geometry, fusion and
  days of stock use exact arithmetic instead of floats; `int(base * 1.5)` is floor(3 * base / 2).
- Aliasing: the list of defect dictionaries that the agents share is a sequence of records that each agent replaces.
- Scribble hits enter with their final boxes; the transformation from crop to frame coordinates is not part of this
  model.
- `Fusion.WeightedBoxesFusion`: a model's boxes, scores and labels come as one list of detections, so the truncation
  of lists of unequal length does not arise; the filters that the detector applies after fusion are not modelled.
- `Fusion.AverageInHull`: weights are positive, as the three configured ones are.
- `ScoringLaws.ChargesAccountForTotal`: for lists where no charge of an earlier scoring puts another kind of defect into
  the wear group; `VisionLaws.ReadingLaws` shows that a reading never produces one.
- `Delivery`: API errors arise in the inference call, and every other statement may raise anything else. Redis answers
  the lock and the dead letter push, and the job exists. A message of a live delivery may be redelivered at any time,
  because the visibility timeout runs from its reservation; one of a crashed delivery is restored at any time. An
  override or recall always finds the item of its job.
- `InspectionRun.InspectionGraph.Invoke`: a call starts from the entries that the last checkpoint holds; the unfinished
  nodes of an interrupted call are dropped, as the graph library does on a new input. Calls for one job do not overlap.
- The soft limit of 300 s (app/core/celery_app.py:34) is no step of its own. Where the pool raises it inside a delivery, a
  model call swallows it with its broad handler (app/ai/agents/detector.py:74, app/ai/agents/vision.py:381, 527, 841 and
  926, app/ai/agents/policy.py:297, 728 and 755, app/ai/agents/critic.py:247) and counts as failed, which the oracles
  allow; another statement that lets it through takes an `OtherError`.
- `DeliveryLaws.FinishedJobStays`: for deliveries that act within their leases, without flagged deliveries and without
  deliveries that raise before their guard or after their save; the lemmas beside it show that each of these can change a finished job.
- `WorkerLaws.DeliveryIsARun`: for a delivery that nothing interrupts; interleavings are covered by the protocol.
- `DeadLetters.DeadLetterQueue.Push`: the expiry of the whole list after 14 days is not modelled.
- `SeedCatalog.BuildDefectsForGrade`: the random confidences of the seeded defects are not modelled.
- `RestockLaws.SoundAlways`: for requests one after the other; two that read the board at the same time are not modelled.
- Malformed ids in an admin's request, which make the original stop halfway, are not modelled.
- Prices of proposals, stock counting, rack assignment, order and picking services, accounts and uploads.
- Exactly-once claims for rack assignment and restock enqueueing: both come before the save, so a crash repeats them.
