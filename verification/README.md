# Verified models of the control stack

Dafny 4.11 models of the parts of the robot control program that decide what the
robot is told to do, with proofs of what they promise. `dafny verify dfyconfig.toml`
checks everything.

| file | component |
|---|---|
| Reseed.dfy, ReseedLoops.dfy | the planner reseed protocol between the planner thread and the 50 Hz control loop: every interleaving of atomic steps, and the two loop bodies as sequential code |
| Arbiter.dfy | control-source arbitration and the token blends |
| Playback.dfy, PlannerResample.dfy, JointOrder.dfy | plan adoption and blending in absolute time; 30 to 50 Hz resampling and the planner context |
| TraceRing.dfy | the lock-free trace ring with 32-bit wrapping counters |
| Crc.dfy | the packet checksum and the damage it always detects |
| Fips180.dfy, Sha256Constants.dfy, Sha256Words.dfy, Sha256Length.dfy, Sha256.dfy | the streaming SHA-256 hasher, against FIPS 180-4 written out as a specification, and what that specification's constants are |
| Geometry.dfy, Rotations.dfy | vectors, quaternions, slerp |
| ThreePoint.dfy, ArmReach.dfy | 3-point extraction, calibration, the two-link arm solve |
| SmplResampler.dfy, DelayLine.dfy, StateHistory.dfy | the irregular-stream resampler and the history rings |
| TeleopTracker.dfy | gestures and the exclusivity of the two teleop flavors |
| LossPolicy.dfy | what is written during a LowState loss and an emergency stop |
| TapDetector.dfy, RecordControl.dfy | tap gestures and the recording commands they produce |
| HandGuard.dfy | the hands' stall guard |

How the models are built:

- Code that changes state step by step is a class or a method with loops, proved
  equal to a specification function; the promises are lemmas about that function
  over all inputs and all runs.
- Threads are state machines over atomic steps (one locked section or one atomic
  access each). A recorded history (the epoch of a pose, the request the buffer was
  cleared for) is part of the state, so that "computed from a pose older than the
  request" can be said.
- Floats and doubles are reals; times are whole nanoseconds or exact fractions of
  frames. Square root, sine, cosine and arc cosine are unknown functions of which
  only `Math.Laws` is used. 32- and 64-bit words are bit-vectors where bits matter
  and naturals modulo 2^32 where only wrap-around does.

Where the code and its comments disagree the model follows the code:

- include/planner/planner_inference.hpp:49-50 calls every motion published after a
  completed reseed post-reseed. On the recovery path the timeline is cleared only
  after the acknowledgement is seen, and a planner that samples it in between
  publishes a motion computed from the frozen timeline. `FirstAdoptionAfterRecovery`
  says exactly when, `LateMotionIsAdopted` gives a run, `PunctualRecoverySafety`
  the assumption under which it cannot happen.
- include/teleop/teleop_tracker.hpp:39-41 calls the two teleop flavors exclusive. A
  calibration request still pending when full-body engages makes them overlap;
  `TickBreaksExclusivity` says exactly when.
- src/motion/input_handler.cpp:91-94 asks for the four buttons to be held together
  for a second. The counter is not reset while the controller link is down, so the
  500 ticks need not be successive in time (`LatchedIffHeld` says exactly when the
  latch is set, `InterruptedHoldLatches` gives 250 ticks, a link drop and 250 more).
- The record call that is in flight when the trace writer exits loses its row
  (`LateRowIsLost`); completeness needs the producer to have ceased.
- A latched hand motor is commanded a fixed offset toward its target, which can lie
  beyond the target (`PassesTargetIff`); a motor that is not hot can get there
  exactly when the stall threshold is below the offset (`CoolMotorPassesIff`), as
  with the source's defaults (`DefaultsPassTarget`).
- src/teleop/smpl_arm_reach.cpp:79 swivels a vertical arm back by default. That is
  so for a raised arm; a hanging one bends forward (`DefaultSwivel`).

## Model

| member | source | states |
|---|---|---|
| Reseed.LossReseedSafety | src/control/whole_body_controller.cpp:385-402 | In every reachable state of every interleaving of the two threads, nothing the controller tracks was computed from a pose older than the last loss request, nothing is tracked before that request is acknowledged, and whatever is adopted is acknowledged, at least as new as the request and published after the planner's clear for it. |
| Reseed.FloorNeverFalls | src/control/whole_body_controller.cpp:399 | The request that bounds what is adopted never decreases along a run, so the previous row holds from every loss on, for ever. |
| Reseed.MissingIsTrailing | src/control/whole_body_controller.cpp:364-403 | In every run the missing count is the number of ticks without a state since the last one with. |
| Reseed.LongLossIff | src/control/whole_body_controller.cpp:364-403 | In every run the next tick with a state clears the timeline and asks for a reseed exactly when, in CONTROL, the last 26 ticks had none; otherwise it goes on. |
| Reseed.PlannerStepKeeps | src/planner/planner_inference.cpp:383-395 | Every planner step keeps: a planner that is not initialized has an empty buffer, acknowledgements never fall, and a motion about to be acknowledged goes back to a pose read after the request it answers. |
| Reseed.ControllerStepKeepsController | src/control/whole_body_controller.cpp:233-261 | Every controller step keeps: past the ticket gate the loss ticket is cleared and the last loss request is acknowledged; leaving a recovery needs its acknowledged ticket. |
| Reseed.StepKeepsSettled | src/planner/planner_inference.cpp:377-405 | A request the controller waits for or is past stays a lower bound for the buffer, the planner's own last output, its motion in flight and the tracked timeline under every step of either thread. |
| Reseed.RunKeepsFullInv | src/control/whole_body_controller.cpp:343-425 | All protocol invariants hold after every run. |
| Reseed.EveryStayEndsAcknowledged | src/control/whole_body_controller.cpp:461-517 | Every stay in kRecovering ends only in kNormal, after exactly one ticket, after at least 50 select_token calls, and with that ticket acknowledged. |
| Reseed.StayEnds | src/control/whole_body_controller.cpp:538-548 | Within a stay the one ticket is taken only when the standing blend has reached its 50th tick. |
| Reseed.TicketIsTaken | src/control/whole_body_controller.cpp:538-548 | In every run a stay in kRecovering has its ticket exactly from its 50th blend tick on, but for the moment between that tick and the request. |
| Reseed.AdoptionTakes | src/control/whole_body_controller.cpp:182-222 | An adoption takes the buffer's stamp and tracks something no newer than the buffer's motion, on an empty timeline exactly that; otherwise the tracked timeline stays. |
| Reseed.IterationAcknowledges | src/planner/planner_inference.cpp:376-395 | Progress in every interleaving: a planner iteration that finds a state and gets a sequence has, when it is back at its loop top, acknowledged every request its load of reinit_requested_ saw, whatever the controller did meanwhile, and that stays so for ever. |
| Reseed.ServedRecoveryEnds | src/control/whole_body_controller.cpp:461-509 | So a stay in kRecovering whose ticket such a load saw ends in kNormal at the next arbitration, which leads to the clear of the timeline. |
| Reseed.ServedLossResumes | src/control/whole_body_controller.cpp:243-247 | And after a long loss whose ticket such a load saw, tick_control passes its ticket gate. |
| Reseed.FirstAdoptionAfterRecovery | src/control/whole_body_controller.cpp:499-509 | The first motion adopted after a recovery was published after the planner's clear for its ticket, and goes back to a pose older than the ticket exactly when a motion sampled from the not yet cleared timeline was published after the acknowledgement. |
| Reseed.PunctualRecoverySafety | src/control/whole_body_controller.cpp:499-509 | If the planner never samples the frozen timeline between acknowledging a recovery ticket and the controller's clear, everything tracked or adopted from then on goes back to a pose read after the request. |
| Reseed.PunctualKeepsOrigin | src/planner/planner_inference.cpp:405-439 | The invariant behind the previous row, over every run meeting the scheduling assumption. |
| Reseed.LateMotionIsAdopted | include/planner/planner_inference.hpp:45-52 | Without that assumption the documented promise fails: a run in which the first motion adopted after acknowledged ticket 1 has a pre-request context. |
| ReseedLoops.Threads.InitializeOnce | src/planner/planner_inference.cpp:306-332 | Undisturbed, initialize_once is exactly these steps of the protocol: no state; or the state is read and the inference fails; or it is read and a first motion published. It succeeds exactly with a state and a sequence. |
| ReseedLoops.Threads.Replan | src/planner/planner_inference.cpp:405-439 | Undisturbed, the replan branch is exactly: no replan; or the context sampled, from the timeline if there is one, and the inference failed or the motion published. |
| ReseedLoops.Threads.PlannerIteration | src/planner/planner_inference.cpp:373-439 | Undisturbed, one planner iteration is exactly the load, the branch, then a replan when initialized with nothing requested, else initialize_once and, if that succeeds, the acknowledgement. A restart with a state and a sequence leaves nothing requested unacknowledged. |
| ReseedLoops.Threads.LossGate | src/control/whole_body_controller.cpp:362-405 | Undisturbed, the loss gate counts a missing state; after more than 25 missing ticks in CONTROL it clears the timeline and then requests a reseed; otherwise it only goes on. |
| ReseedLoops.Threads.UpdateArbiter | src/control/whole_body_controller.cpp:461-517 | Undisturbed, the arbitration takes the arbiter's decision on these inputs, and clears the timeline exactly on the way from kRecovering to kNormal. |
| ReseedLoops.Threads.TickRecovery | src/control/whole_body_controller.cpp:538-548 | Undisturbed, a recovery tick counts the blend, and takes the ticket exactly when the blend reaches its 50th tick with none taken in this stay. |
| ReseedLoops.Threads.TickPlanned | src/control/whole_body_controller.cpp:178-229 | Undisturbed, the planner-driven tick adopts at most the buffer's motion, once per stamp, or nothing when the encoder or decoder failed. |
| ReseedLoops.Threads.TickControl | src/control/whole_body_controller.cpp:233-332 | Undisturbed, tick_control skips without a state, stops at the ticket gate while the loss ticket is unacknowledged, and otherwise arbitrates and runs the path of the mode decided. |
| ReseedLoops.TurnEndsRecovery | src/control/whole_body_controller.cpp:233-332 | From any reachable state in kRecovering with an unacknowledged ticket: one undisturbed planner iteration with a state and a sequence and then one undisturbed tick_control end the recovery in kNormal, and what is tracked then, if anything, goes back to a pose read after the ticket. |
| ReseedLoops.ReplanRun | src/planner/planner_inference.cpp:405-439 | An undisturbed replan with a sequence publishes a motion whose context goes back to the timeline if there is one, else to the planner's own last output, and changes nothing else but the planner's record of it. |
| Arbiter.ControlArbiter.StepMode | include/control/control_arbiter.hpp:93-109 | The new stage is the transition of the old one; OwnerStays, OnlyArmsArm and RecoveryInRun say what that is. |
| Arbiter.ControlArbiter.SelectToken | include/control/control_arbiter.hpp:127-172 | One token out, and the new stage, as the stage specification says; the held token is the output. |
| Arbiter.ControlArbiter.ArmHandoff | include/control/control_arbiter.hpp:122 | Arms 35 crossfaded outputs and changes nothing else. |
| Arbiter.OwnerStays | include/control/control_arbiter.hpp:70-88 | In every run the owner of the robot keeps it exactly while its condition holds: a calibrated operator whatever the stream does, a live stream whatever the operator does, a recovery until it is done, the origin until a claim. At the first step where it fails a lost stream leads to a recovery, a fresh stream claims the origin before a calibrated operator does, and everything else leads to the origin. |
| Arbiter.OwnerSpeaks | include/control/control_arbiter.hpp:127-172 | In every run with no handoff armed, the output is the stream's token in kVla and the encoder's in kNormal and kTeleop. |
| Arbiter.OnlyArmsArm | include/control/control_arbiter.hpp:93-122 | A handoff of 35 outputs is armed by a claim, the exit of a recovery or an explicit arming, and by nothing else. |
| Arbiter.CommandsStayInHull | include/control/control_arbiter.hpp:127-172 | Over any run every commanded token lies coordinatewise in every box holding the standing token and all tokens fed so far; the blend counters stay within 50 and 35. |
| Arbiter.HandoffStartsAtLastOutput | include/control/control_arbiter.hpp:98-105 | After a claim, a recovery exit or an explicit arming, the next output outside a recovery equals the last commanded token, whatever is fed and whatever steps and armings lie between. |
| Arbiter.RecoveryResidual | include/control/control_arbiter.hpp:143-154 | After k recovery ticks the distance to the standing token is exactly the product of (1 - j/50) for j up to k times the initial distance. |
| Arbiter.RecoveryLands | include/control/control_arbiter.hpp:143-154 | A recovery is on the standing token exactly at its 50th tick and stays there. |
| Arbiter.RecoveryInRun | include/control/control_arbiter.hpp:93-154 | In every run, from the act that enters kRecovering on and whatever lies between the n selections of the stay, the output's distance to the standing token is that product times what it was at entry; from the 50th selection on it is zero. |
| Arbiter.RecoveryPace | include/control/control_arbiter.hpp:143-154 | No recovery tick covers more of the initial gap than the 7th, which covers at most 9.03 % of it. |
| Arbiter.HandoffResidual | include/control/control_arbiter.hpp:155-170 | An armed crossfade to a constant token leaves the product of (1 - j/35); its 36th output is the token. |
| Arbiter.HandoffPace | include/control/control_arbiter.hpp:155-170 | No output of that crossfade covers more of the initial gap than the one of weight 6/35, at most 10.9 %. |
| Arbiter.CoveredRises | include/control/control_arbiter.hpp:143-154 | For a blend of n ticks the share covered per tick rises while k(k+1) <= n. |
| Arbiter.CoveredFalls | include/control/control_arbiter.hpp:143-154 | And falls from there on. |
| Arbiter.StreamToOperator | include/control/control_arbiter.hpp:70-88 | In any run, between kVla and a later kTeleop there is a recovery and then the origin. |
| Arbiter.ToOrigin | include/control/control_arbiter.hpp:70-88 | In any run, kTeleop or kRecovering is left for another mode only through the origin. |
| Playback.Player.AdvancePlayback | src/control/whole_body_controller.cpp:178-229 | The in-place adoption, blend and cursor step equal the timeline specification for every offered motion; the rows below say what that shows. |
| Playback.Player.Clear | src/control/whole_body_controller.cpp:388-396 | The reset empties the timeline and forgets the last stamp. |
| Playback.FirstAdoptionShowsPlan | src/control/whole_body_controller.cpp:186-194 | After any run without a timeline, adopting a plan shows all of it from the current tick on, holding its last frame. |
| Playback.FirstAdoptionPlays | src/control/whole_body_controller.cpp:186-228 | From no timeline on, while the plan stays in the buffer, tick n shows its frame n, or its last one. |
| Playback.AdoptionCovers | src/control/whole_body_controller.cpp:195-222 | A new plan wholly in the past changes nothing but the stamp; any other one gives a timeline from now to the plan's end, at most 1500 frames. |
| Playback.AdoptedOnce | src/control/whole_body_controller.cpp:182-184 | A plan is adopted once. |
| Playback.BlendIsAligned | src/control/whole_body_controller.cpp:196-222 | In absolute time a blend frame up to the blend point is the old timeline's, and one from 8 frames later on is the new plan's (quaternion up to sign), exactly when slerp keeps that end: the pair is not within its linear branch or the quaternion is a unit one. In between joints, velocities and positions move over in eighths. |
| Playback.RunStaysValid | src/control/whole_body_controller.cpp:178-229 | After every run of ticks and resets on published motions: 0 <= cursor < frames <= 1500 whenever there is a motion, playing exactly then, and cursor 0 without one. |
| Playback.RunStaysUnit | src/control/whole_body_controller.cpp:196-222 | If all motions offered have unit quaternions, so has the tracked timeline after every run. |
| Playback.AdoptionDoesNotJump | src/control/whole_body_controller.cpp:196-222 | After every run on published motions, adopting any plan onto a timeline shows, at the same absolute time, the frame that was due at the cursor, whatever the plan's gen_frame: all but the rotation always, the rotation exactly when there is no blend or slerp keeps its start, which it does when only unit quaternions were offered. |
| Playback.TickAdvancesTime | src/control/whole_body_controller.cpp:226-228 | A tick moves one frame on in absolute time, or holds the last frame. |
| Playback.PlacementShift | src/planner/planner_inference.cpp:430-432 | A plan generated at one step of a run and blended in at a later one is shifted from the absolute tick it was generated for by the sum of the cursors at which the timeline was replaced in between: it lies where it was meant exactly when every such replacement was at cursor 0. |
| PlannerResample.Resample | src/planner/planner_inference.cpp:214-269 | Accepted exactly for 2 to 64 source frames; floor(5n/3) output frames, each sampled at 3f/5 source frames, with forward-difference velocities. |
| PlannerResample.SourceFramesExist | src/planner/planner_inference.cpp:234-240 | Every source frame read exists, and frame plus share is exactly the output's time. |
| PlannerResample.DurationKept | src/planner/planner_inference.cpp:225-232 | The 50 Hz frames cover the source's n/30 seconds but for less than one frame: 3 to 106 of them. |
| PlannerResample.LinearMotionKept | src/planner/planner_inference.cpp:234-266 | A joint that moves at a constant rate is resampled exactly at every frame, held at the source's last one, with 30 times its step as velocity and the last velocity repeated. |
| PlannerResample.LinearPositionKept | src/planner/planner_inference.cpp:248-250 | So is a root that moves at a constant rate. |
| PlannerResample.GridPoint | src/planner/planner_inference.cpp:234-259 | Output frame 5k reproduces position and joints of source frame 3k, and its quaternion exactly when slerp keeps its start. |
| PlannerResample.JointsInHull | src/planner/planner_inference.cpp:257-259 | Every joint lies between those of its two neighbouring source frames. |
| PlannerResample.PositionsInHull | src/planner/planner_inference.cpp:248-250 | Every position lies, axis by axis, between those of its two neighbouring source frames. |
| PlannerResample.VelocitiesTelescope | src/planner/planner_inference.cpp:262-266 | Integrating the velocities at 50 Hz gives back the joint differences. |
| PlannerResample.Differentiate | src/planner/planner_inference.cpp:262-266 | Forward differences with the last one repeated; nothing else in the frames changes. |
| PlannerResample.GatherJoints | src/planner/planner_inference.cpp:257-259 | The joints of one output frame, gathered from MuJoCo into IsaacLab order. |
| PlannerResample.ScatterInto | src/planner/planner_inference.cpp:206-208 | Writes exactly the 29 joint slots, scattered back to MuJoCo order. |
| PlannerResample.UpdateContext | src/planner/planner_inference.cpp:185-210 | Fills the whole context, entry n interpolated 5n/3 frames past gen_frame. |
| PlannerResample.ContextFramesExist | src/planner/planner_inference.cpp:185-194 | Context entry n is read between the two frames around 5n/3 frames past gen, with exactly that share, or is the last frame. |
| PlannerResample.LinearMotionInContext | src/planner/planner_inference.cpp:198-209 | A joint that moves at a constant rate is exact in every context entry, in MuJoCo's place for it. |
| PlannerResample.LinearPositionInContext | src/planner/planner_inference.cpp:201-203 | So is a root that moves at a constant rate. |
| PlannerResample.ContextGivesBackSource | src/planner/planner_inference.cpp:185-266 | Round trip: sampling the context at output frame 5k of a fresh sequence gives back source frames 3k and 3k+3 as entries 0 and 3, in the original joint order: position and joints always, the whole entry exactly when slerp keeps its start in both samplings, to 50 Hz and back. |
| JointOrder.Permutations | include/common/joint_order.hpp:13-20 | The two joint tables are inverse permutations of 0..28. |
| JointOrder.BreadthFirst | include/common/joint_order.hpp:7-20 | IsaacLab's order is the breadth-first one of the joint chains (two legs of six, three waist joints, two arms of seven on the last of those), MuJoCo's the depth-first one; that leaves one table. |
| Geometry.SlerpStart | include/common/math_utils.hpp:126-156 | slerp at 0 is its first argument exactly when the pair is outside the linear branch or that argument is a unit quaternion. |
| Geometry.SlerpEnd | include/common/math_utils.hpp:126-156 | slerp at 1 is its second argument up to sign exactly when the pair is outside the linear branch or that argument is a unit quaternion. |
| Geometry.SlerpIsUnit | include/common/math_utils.hpp:126-156 | Between unit quaternions slerp stays on the unit sphere, on both of its branches. |
| Geometry.SlerpTurnsEvenly | include/common/math_utils.hpp:126-156 | Between unit quaternions slerp goes the short way; outside the linear branch share t of the way is at t times the angle, within it the result is the normalized linear mix. |
| Geometry.SlerpStartTwice | include/common/math_utils.hpp:126-156 | Two slerps at 0 in a row give back their first argument exactly when each keeps it, even where quat_unit's floor of 1e-12 is reached. |
| Rotations.MulIsHamilton | include/common/math_utils.hpp:34-52 | The product with fewer multiplications is the Hamilton product. |
| Rotations.MulAssoc | include/common/math_utils.hpp:34-52 | It is associative. |
| Rotations.RightHanded | include/common/math_utils.hpp:34-71 | The product is right-handed (i j = k and round), and a quarter turn about z takes x to y and y to -x. |
| Rotations.MulUnit | include/common/math_utils.hpp:34-52 | It keeps unit quaternions. |
| Rotations.RotateIsConjugation | include/common/math_utils.hpp:55-71 | quat_rotate by a unit quaternion is conjugation with it. |
| Rotations.RotateTwice | include/common/math_utils.hpp:55-71 | On unit quaternions quat_rotate is a homomorphism. |
| Rotations.MatrixIsRotation | include/common/math_utils.hpp:106-116 | The rotation matrix of a unit quaternion acts as quat_rotate. |
| ThreePoint.PermutationIsRotation | src/teleop/teleop_tracker.cpp:23-27 | The axis permutation takes x, y, z to -x, z, y and is the rotation by kUnityToRobot. |
| ThreePoint.TurnInRobotAxes | src/teleop/teleop_tracker.cpp:326-332 | A turn in headset axes is a conjugated turn in robot axes. |
| ThreePoint.ExtractionUndone | src/teleop/teleop_tracker.cpp:315-340 | Turned back by the pelvis's key rotation, the left, right and neck keypoints are SMPL joints 22, 23 and 12 relative to joint 0, in place and rotation. |
| ThreePoint.OffsetsTurnAxes | src/teleop/teleop_tracker.cpp:36-41 | The frame corrections turn the axes as stated: -90 degrees yaw for pelvis and neck, +90 roll for the left wrist, -90 roll and 180 yaw for the right. |
| ThreePoint.RootRelativeInvariant | src/teleop/teleop_tracker.cpp:315-340 | A joint seen from the pelvis does not change when the operator turns and moves as a whole. |
| ThreePoint.ExtractionInvariant | src/teleop/teleop_tracker.cpp:315-340 | The whole 3-point extraction is invariant under any unit rotation and translation of all tracked joints. |
| ThreePoint.Calibrator.CaptureCalibration | src/teleop/teleop_tracker.cpp:344-396 | The captured state: the neck kept or taken, both wrist offsets against their references. |
| ThreePoint.Calibrator.ApplyCalibration | src/teleop/teleop_tracker.cpp:399-427 | The three targets from the raw extraction and the captured state. |
| ThreePoint.CalibrationMapsToReference | src/teleop/teleop_tracker.cpp:344-427 | Whatever the pose captured, applying the calibration to it gives the wrist references, and for a fresh capture an upright neck 40 cm above the root. |
| ThreePoint.RecalibrationKeepsNeck | src/teleop/teleop_tracker.cpp:345-350 | A calibration keeps a neck captured before. |
| ThreePoint.WristsMoveTargets | src/teleop/teleop_tracker.cpp:399-427 | Gain one: a wrist that moves and turns in its own axes moves its own target by the same, seen from the calibrated neck, and no other. |
| ThreePoint.NeckTargetPlaces | src/teleop/teleop_tracker.cpp:408-417 | The neck target lies 35 cm along the neck from a point 5 cm above the root. |
| ThreePoint.TargetsInvariant | src/teleop/teleop_tracker.cpp:315-427 | End to end, targets depend neither on where the operator stood and faced at capture nor on where they do now. |
| ThreePoint.CalibratedOperatorMayWalk | src/teleop/teleop_tracker.cpp:315-427 | A calibrated operator who only turns and walks keeps the robot in the reference pose. |
| ArmReach.SolveArm | src/teleop/smpl_arm_reach.cpp:51-92 | Below 1 mm nothing changes; otherwise only elbow, wrist and thumb move, upper arm and forearm keep their lengths exactly, the wrist lies on the tracked direction at the scaled reach, the elbow on the swivel's side, the thumb keeps its offset, and max_reach grows to the tracked length. |
| ArmReach.PlaceArm | src/teleop/smpl_arm_reach.cpp:60-91 | The two-link solve itself, for every tracked direction. |
| ArmReach.RootIsReal | src/teleop/smpl_arm_reach.cpp:72-74 | Within the triangle inequality the square root's argument is positive. |
| ArmReach.TriangleCloses | src/teleop/smpl_arm_reach.cpp:72-74 | The elbow's plane coordinates close the triangle of both bone lengths. |
| ArmReach.SwivelIsUsable | src/teleop/smpl_arm_reach.cpp:76-84 | Every swivel fallback is non-zero and orthogonal to the arm direction. |
| ArmReach.LongestReachIsStraight | src/teleop/smpl_arm_reach.cpp:61-64 | At the longest reach so far the solved arm is straight up to the slack. |
| ArmReach.ReachIsProportional | src/teleop/smpl_arm_reach.cpp:61-69 | The solved reach is to the arm's length as the tracked reach to the longest one, clamped to the linkage's range. |
| ArmReach.SolvedElbowStays | src/teleop/smpl_arm_reach.cpp:63-91 | If the FK elbow already has both bone lengths to shoulder and wrist and is off the line between them, the solve keeps it. |
| ArmReach.DefaultSwivel | src/teleop/smpl_arm_reach.cpp:76-84 | Without a side from the FK elbow the arm bends down; where it is vertical, a raised arm bends back and a hanging one forward. |
| ArmReach.TrackedArmUndone | src/teleop/smpl_arm_reach.cpp:31-41 | Turned back by the pelvis's rotation the tracked arm points from the tracked shoulder to the tracked wrist. |
| ArmReach.TrackedArmInvariant | src/teleop/smpl_arm_reach.cpp:31-41 | The tracked arm does not change when the operator turns and moves as a whole. |
| SmplResampler.Resampler.Push | include/teleop/smpl_resampler.hpp:50-63 | A sample is kept exactly if it is later than the newest; the ring, count and interval follow the log of kept samples. |
| SmplResampler.Resampler.SampleAt | include/teleop/smpl_resampler.hpp:65-82 | None before the first sample; else piecewise interpolation of the last at most 8 kept samples at now minus the delay, holding both ends. |
| SmplResampler.Resampler.Reset | include/teleop/smpl_resampler.hpp:44-48 | Starts an empty log and the seed interval. |
| SmplResampler.AlphaIsRatio | include/teleop/smpl_resampler.hpp:93-98 | Between its neighbours the clamped quotient of seconds is the plain ratio of times. |
| SmplResampler.IntervalWithinGaps | include/teleop/smpl_resampler.hpp:50-58 | From two samples on, the smoothed interval stays within the gaps kept since the reset; before that it is the seed. |
| SmplResampler.LoggedIncreases | include/teleop/smpl_resampler.hpp:50-58 | For every arrival history the kept times are strictly increasing and reach the last arrival. |
| SmplResampler.InOrderAllLogged | include/teleop/smpl_resampler.hpp:50-58 | A stream in order is kept entirely. |
| SmplResampler.RecentEight | include/teleop/smpl_resampler.hpp:72-82 | The last eight kept samples are at hand. |
| SmplResampler.GridDelay | include/teleop/smpl_resampler.hpp:66-67 | The grid lies the measured interval times the factor behind now, within the delay's bounds, to the nanosecond. |
| SmplResampler.IntervalSettles | include/teleop/smpl_resampler.hpp:50-58 | When the stream's interval changes, each further sample takes the share ema of what is left of the difference. |
| SmplResampler.LinearMotionSampled | include/teleop/smpl_resampler.hpp:100-111 | A coordinate that moves at a constant rate comes out exactly. |
| DelayLine.Line.Process | src/teleop/teleop_tracker.cpp:273-297 | The 16-slot ring gives, at every tick of an engagement, the ten-frame window of the unbounded pose log. |
| DelayLine.Line.Drop | src/teleop/teleop_tracker.cpp:228-232 | An engage and a disengage drop the history. |
| DelayLine.WindowShifts | src/teleop/teleop_tracker.cpp:291-296 | From tick to tick the five tracked frames move up by one, warm-up included; the others hold the newest pose. |
| DelayLine.WindowAges | src/teleop/teleop_tracker.cpp:289-296 | Frame f of ten is the pose 5 - f ticks old, the newest from frame 5 on, and during warm-up at most the oldest there is. |
| TeleopTracker.Loop.TickOnce | src/teleop/teleop_tracker.cpp:79-124 | One loop iteration of the flags and buffers, as specified stage by stage. |
| TeleopTracker.Loop.CheckCalibrationGesture | src/teleop/teleop_tracker.cpp:137-180 | The B gesture: ignored under VLA, recovery and full-body, a latched 50-tick toggle otherwise. |
| TeleopTracker.Loop.CheckFullbodyGesture | src/teleop/teleop_tracker.cpp:188-226 | The A gesture: ignored under VLA, recovery and upper-body; engages only from idle with a body sample. |
| TeleopTracker.TickBreaksExclusivity | src/teleop/teleop_tracker.cpp:79-124 | From an exclusive state a tick ends with both flavors engaged, and with both buffers full, exactly when full-body is engaged after the gestures and a pending calibration request meets a new, not stale body sample. |
| TeleopTracker.UndisturbedRunsAreExclusive | src/teleop/teleop_tracker.cpp:79-311 | In every run with no request pending at a full-body engage and none from outside while engaged, the flavors are never both engaged and the buffers never both hold data. |
| TeleopTracker.UnbrokenRunsAreSound | src/teleop/teleop_tracker.cpp:79-124 | Every run without such a breaking tick is exclusive. |
| TeleopTracker.GesturesNeedTheirSecond | src/teleop/teleop_tracker.cpp:137-226 | In every run full-body engages only on a tick that ends 50 successive ticks of A alone, and the tracker raises a calibration request only after 50 of B alone, with neither the stream nor a recovery owning the robot. |
| TeleopTracker.GesturesActOnTheFiftieth | src/teleop/teleop_tracker.cpp:137-226 | In every run each gesture acts exactly on its 50th successive counting tick and not again before it is let go: A alone toggles full-body, on only from idle locomotion with a body sample; B alone turns a calibrated upper body off and otherwise asks for a calibration. |
| TeleopTracker.TickServesBuffers | src/teleop/teleop_tracker.cpp:97-123 | What a tick makes of the body stream: a pending request is captured by the next new sample, the upper-body buffer is filled on new samples while calibrated and emptied without a body, the full-body window is filled on every tick while engaged, which a missing or stale stream ends. |
| TeleopTracker.ResetTurnsBothOff | src/teleop/teleop_tracker.cpp:86-93 | A reset request turns both flavors off, once. |
| TeleopTracker.PendingRequestBreaksExclusivity | src/teleop/teleop_tracker.cpp:168-180 | A run with a request left pending by a stream dropout: both flavors engaged, both buffers full. |
| StateHistory.StateLogger.Log | include/control/state_logger.hpp:30-35 | The ring refines an unbounded log. |
| StateHistory.StateLogger.GetLatest | include/control/state_logger.hpp:39-48 | The last n entries the ring still holds, oldest first, zero-padded in front; up to the capacity that is the unbounded log's answer. |
| StateHistory.FillObs | src/control/policy_decoder.cpp:45-64 | All 930 inputs after the token are the five blocks of the ten frames; the token is untouched. |
| StateHistory.BlocksTile | src/control/policy_decoder.cpp:9-14 | The five blocks tile inputs 64 to 993 exactly. |
| StateHistory.InputsAre | src/control/policy_decoder.cpp:9-64 | Where each quantity of history frame f lies in the policy's 994 inputs. |
| StateHistory.DownIsDown | include/common/math_utils.hpp:119-121 | The gravity input, turned back into the world, points down. |
| StateHistory.FlatAt | src/control/policy_decoder.cpp:48-62 | Component i of frame f of a block sits at its place, oldest frame first. |
| StateHistory.LatestAt | include/control/state_logger.hpp:39-48 | The f-th of the last n is the entry n - f from the end of the log, or the zero entry. |
| StateHistory.ReachedTargetsLogTheAction | src/control/policy_decoder.cpp:33-39 | Motors that reach their targets are logged as the scaled action in the policy's own joint order. |
| StateHistory.DefaultPoseIsZero | src/control/policy_decoder.cpp:33-39 | Without an action the targets are the default pose, which is logged as zero. |
| HandGuard.Guard.Apply | include/unitree/hand_guard.hpp:59-96 | Pass-through with a reset detector when disabled or unmeasured; otherwise every motor's latch, position and gains. |
| HandGuard.CommandIsBounded | include/unitree/hand_guard.hpp:85-93 | In range, never on the far side of the finger from the target, and kp times the offset within the torque bound (unlatched) or the holding torque (latched). |
| HandGuard.UnlatchedReaches | include/unitree/hand_guard.hpp:85-93 | An unlatched motor gets its target, or the nearest point it may ask for with the stall torque, unless the joint's limit comes first. |
| HandGuard.LatchedKeepsOffset | include/unitree/hand_guard.hpp:85-93 | A latched one gets exactly the offset toward its target, unless the joint's limit comes first. |
| HandGuard.PassesTargetIff | include/unitree/hand_guard.hpp:85-93 | The command passes the target exactly when latched with the target nearer than the holding offset and off the joint limit. |
| HandGuard.CoolMotorPassesIff | include/unitree/hand_guard.hpp:75-93 | Whatever the tick, some trace leaves a motor that is not hot latched nearer its target than the holding offset exactly when the stall threshold is below that offset. |
| HandGuard.DefaultsPassTarget | include/unitree/hand_guard.hpp:35-51 | With the source's default parameters: 15 ticks of 20 ms stalled 0.2 rad short of the target latch the motor, and the command goes 0.05 rad past it. |
| HandGuard.LatchExplained | include/unitree/hand_guard.hpp:75-83 | Since the last reset: latched exactly when at some tick the motor was hot or had been stalled for the stall time without a break, and no release tick came at or after it. |
| HandGuard.OnlyStallLatches | include/unitree/hand_guard.hpp:75-83 | A motor that at every tick moves or is near its target and is never hot is never latched. |
| HandGuard.HotLatches | include/unitree/hand_guard.hpp:75-83 | A hot one is latched at once. |
| LossPolicy.Controller.LoopOnce | src/control/whole_body_controller.cpp:343-420 | What one loop tick writes and counts, for e-stop, loss and normal ticks. |
| LossPolicy.Controller.PublishBaseHold | src/control/whole_body_controller.cpp:98-110 | The ramped base command. |
| LossPolicy.OnlyEstopDamps | src/control/whole_body_controller.cpp:350-359 | A loop write is damping exactly when the e-stop was read. |
| LossPolicy.MissingIsLostSince | src/control/whole_body_controller.cpp:364-403 | In every run the missing count is the number of ticks without a state since the last one with. |
| LossPolicy.TickWrites | src/control/whole_body_controller.cpp:343-420 | In every run what a tick writes: damping with kd 8 and everything else zero under the e-stop; nothing in the first 25 ticks of a loss and a base hold after that; with a state the phase's own command, until an e-stop has ended the control. The buffer holds the last write. |
| LossPolicy.EstopEndsControl | src/control/whole_body_controller.cpp:350-359 | An e-stop ends the control for good. |
| LossPolicy.DampingIffHeld | src/control/whole_body_controller.cpp:350-359 | In every interleaving of 500 Hz pad ticks and 50 Hz loop ticks, a loop tick writes damping exactly when all four buttons were down for some 500 successive link-up pad ticks before it. |
| LossPolicy.DampingFromEstopOn | src/control/whole_body_controller.cpp:350-359 | In every interleaving of pad ticks and loop ticks, once a loop tick writes damping every later one does, and one writes it only after a pad tick that completed 500 successive link-up ticks of all four buttons. |
| LossPolicy.LossWrites | src/control/whole_body_controller.cpp:364-382 | A loss writes nothing for 25 ticks, then moves from the last command to the base pose, which it is from tick 75 on. |
| LossPolicy.LossIsLostFor | src/control/whole_body_controller.cpp:364-382 | Any run ending in n loss ticks is in the state of the previous row. |
| LossPolicy.RampPace | src/control/whole_body_controller.cpp:98-110 | Each ramp tick moves every joint by exactly a fiftieth of its gap, starting at the last command. |
| LossPolicy.EstopLatch.Update | src/motion/input_handler.cpp:87-102 | One tick of the e-stop counter and latch. |
| LossPolicy.LatchedIffHeld | src/motion/input_handler.cpp:87-102 | Latched exactly when 500 successive ticks among those with the link up had all four buttons down; a link drop does not interrupt them. |
| LossPolicy.InterruptedHoldLatches | src/motion/input_handler.cpp:87-102 | 250 ticks of all four buttons, a tick with the link down and 250 more set the latch. |
| LossPolicy.ShortHoldDoesNotLatch | src/motion/input_handler.cpp:87-102 | 500 ticks set the latch, 499 do not. |
| LossPolicy.LatchIsAbsorbing | src/motion/input_handler.cpp:95-99 | Once set the latch stays set. |
| TapDetector.Detector.Update | include/motion/tap_detector.hpp:23-59 | One update of the detector and its report. |
| TapDetector.TapsAreConserved | include/motion/tap_detector.hpp:23-59 | For every button trace, taps = reported + cancelled + pending. |
| TapDetector.ReportsExactly | include/motion/tap_detector.hpp:9-18 | Single, double and triple are reported exactly for groups of one, two and three short presses with gaps within the window, from a tick on at which the trace is at rest, with no voided tick and no long press in between. |
| TapDetector.QuietIffRest | include/motion/tap_detector.hpp:23-59 | Nothing is under way in the detector exactly when the ticks alone say so: none yet, or the last one is a release after a rest, after a voided gesture, of a long press, of a third tap, or closing the window of one or two taps. |
| TapDetector.LimitsInTicks | include/motion/tap_detector.hpp:17-19 | In ticks of 50 ms a press of 6 is a tap and one of 7 is not; a release of 8 continues the gesture and one of 9 closes it. |
| TapDetector.TailExists | include/motion/tap_detector.hpp:23-59 | Every state that is not void is explained by a group of counted taps at the end of its trace, from a rest on. |
| TapDetector.TailExplains | include/motion/tap_detector.hpp:23-59 | Every group of at most two counted taps leads to the state that counts it. |
| RecordControl.Commander.OnTap | src/collector/record_commander.cpp:38-53 | A tap sends at most one command, numbered without a gap; the mirror is where the collector is. |
| RecordControl.AcceptedExactlySessions | include/collector/record_control.hpp:49-58 | The collector accepts exactly the prefixes of (Start Stop Label?)*. |
| RecordControl.TapsMakeSessions | include/collector/record_control.hpp:26-58 | Whatever is tapped, what is sent is such a prefix and the mirror equals a collector executing it. |
| RecordControl.TapsSend | include/collector/record_control.hpp:17-46 | What each tap sends, in every run, by what was sent last: B once starts unless a recording runs, B twice stops it, the next A labels it success, fail or partial by its number of taps; nothing else sends anything. |
| TraceRing.FileIsPublishedPrefix | src/control/state_trace.cpp:73-107 | For every interleaving of record and the writer, counter wrap-around included, the file is a prefix of the accepted rows in order and accepted + dropped = attempted. |
| TraceRing.StepKeepsInv | src/control/state_trace.cpp:73-107 | The ring invariant under every atomic step of either thread: no unwritten row is overwritten. |
| TraceRing.RunHistory | src/control/state_trace.cpp:94-107 | Accepted and attempted rows are exactly those of the run's events. |
| TraceRing.ClaimTakesSlot | src/control/state_trace.cpp:96-101 | In every interleaving a call takes a slot unless all 512 hold accepted rows the writer has not given back; exactly then it is dropped. |
| TraceRing.DropsAreFullClaims | src/control/state_trace.cpp:96-101 | Over every run the drops are the calls that found the ring full. |
| TraceRing.LeavesIff | src/control/state_trace.cpp:88-89 | After a drain the writer leaves exactly when it was told to stop and has written every row published so far. |
| TraceRing.DrainTerminates | src/control/state_trace.cpp:79-86 | Every step of a drain decreases its remaining work. |
| TraceRing.AfterExit | src/control/state_trace.cpp:88-89 | After the writer's exit the file no longer changes. |
| TraceRing.ExitComplete | src/control/state_trace.cpp:88-89 | The file an exited writer leaves is complete exactly when the producer publishes nothing more. |
| TraceRing.LateRowIsLost | src/control/state_trace.cpp:64-70 | A producer call still in flight at the exit loses its row. |
| TraceRing.StateTrace.Record | src/control/state_trace.cpp:94-107 | A row is accepted and stored exactly when recording is on and fewer than 512 accepted rows are not yet written; else it is dropped and counted. |
| TraceRing.StateTrace.Drain | src/control/state_trace.cpp:76-87 | The contiguous-run drain loop appends exactly the accepted rows not yet written and terminates. |
| TraceRing.RunRows | src/control/state_trace.cpp:81-84 | One contiguous run takes the next accepted rows, all of them or up to the ring's end. |
| Crc.Crc32Core | include/unitree/crc32.hpp:10-28 | The nested loops compute the register after feeding the words' bits, most significant first, to the all-ones register. |
| Crc.OnLowStateUpdate | src/unitree/unitree_state_reader.cpp:84-97 | A packet is kept exactly when its last word is the checksum of the others. |
| Crc.UnshiftShift | include/unitree/crc32.hpp:17-22 | The zero-input step has a left inverse. |
| Crc.ShiftUnshift | include/unitree/crc32.hpp:17-22 | And a right inverse: it is a bijection. |
| Crc.ShiftLinear | include/unitree/crc32.hpp:17-22 | It is linear over xor. |
| Crc.WordStep | include/unitree/crc32.hpp:13-26 | Feeding word w from register c is 32 zero-input steps from c xor w. |
| Crc.BurstChangesRegister | include/unitree/crc32.hpp:13-26 | Two equally long messages that differ only inside some 32 successive bits have different registers. |
| Crc.AcceptedIffZeroResidue | src/unitree/unitree_state_reader.cpp:90-95 | A packet is accepted exactly when feeding all of it, checksum included, leaves zero. |
| Crc.BurstRejected | src/unitree/unitree_state_reader.cpp:84-97 | Damage confined to any 32 successive bits of an accepted packet, checksum included and across words, is always rejected. |
| Crc.OneWordDetected | src/unitree/unitree_state_reader.cpp:84-97 | Two packets differing in one word have different checksums; one wrong word is always rejected. |
| Crc.KnownChecksums | include/unitree/crc32.hpp:10-28 | The polynomial is 0x04c11db7 and the start all ones: the checksum of no word is 0xffffffff and of one zero word 0xc704dd7b. |
| Sha256Words.RoundRefines | thirdparty/picosha2/picosha2.h:117-128 | One round on 64-bit words masked only where the code masks equals the round of section 6.2.2 of FIPS 180-4 modulo 2^32. |
| Sha256Words.SigmaRefines | thirdparty/picosha2/picosha2.h:73-89 | The sigma functions on wide words refine those of section 4.1.2 of FIPS 180-4. |
| Sha256Words.NextWordRefines | thirdparty/picosha2/picosha2.h:103-106 | The schedule recurrence, masked once, refines the one modulo 2^32. |
| Sha256Words.LoadRefines | thirdparty/picosha2/picosha2.h:97-102 | Four bytes load big-endian. |
| Sha256.Hash256Block | thirdparty/picosha2/picosha2.h:92-140 | The block function is the compression of section 6.2.2 of FIPS 180-4. |
| Sha256.FillSchedule | thirdparty/picosha2/picosha2.h:95-106 | The 64 schedule words. |
| Sha256.RunRounds | thirdparty/picosha2/picosha2.h:108-128 | The 64 rounds. |
| Sha256.Hasher.Process | thirdparty/picosha2/picosha2.h:193-203 | After any chunk (short enough not to wrap the 64-bit digit): the whole blocks of everything fed are hashed, the rest waits, the digits count it modulo 2^64. |
| Sha256.Hasher.Finish | thirdparty/picosha2/picosha2.h:205-222 | The digest words are those of the padded message of section 5.1.1 of FIPS 180-4. |
| Sha256.AddToDataLength | thirdparty/picosha2/picosha2.h:235-247 | The carry loop's digits. |
| Sha256.WriteBitLength | thirdparty/picosha2/picosha2.h:248-268 | Eight bytes of eight times the count modulo 2^64. |
| Sha256.FeedInput | thirdparty/picosha2/picosha2.h:299-314 | Chunks of any buffer size feed exactly the input. |
| Sha256.Hash256 | thirdparty/picosha2/picosha2.h:299-317 | For every input and buffer size the digest is SHA-256 of the input, whose constants, schedule and rounds are those of the rows below. |
| Sha256Constants.RoundConstants | thirdparty/picosha2/picosha2.h:50-61 | Each of the 64 round constants is the first 32 bits of the fractional part of the cube root of its prime. |
| Sha256Constants.InitialHash | thirdparty/picosha2/picosha2.h:63-65 | Each word of the initial hash value is that of the square root of its prime. |
| Sha256Constants.PrimesAscend | thirdparty/picosha2/picosha2.h:50-61 | Those primes ascend and have no other prime factor below 18; they are below 18 squared. |
| Sha256Constants.ScheduleRecurrence | thirdparty/picosha2/picosha2.h:97-106 | For every block the 64 schedule words are the block's words and the recurrence of section 6.2.2 of FIPS 180-4. |
| Sha256Constants.CompressionSteps | thirdparty/picosha2/picosha2.h:108-140 | Round t works on constant t and schedule word t, and the result is added to the old hash, word by word. |
| Sha256Constants.ExampleRounds | thirdparty/picosha2/picosha2.h:117-128 | The first two rounds of the example of FIPS 180-2, appendix B.1. |
| Sha256Constants.ExampleWords | thirdparty/picosha2/picosha2.h:73-102 | The byte order of words, both schedule sigma functions and the sum at values of that example. |
| Sha256Constants.ExamplePadding | thirdparty/picosha2/picosha2.h:205-222 | The padded block of that example's message. |
| LengthDigits.CarryVal | thirdparty/picosha2/picosha2.h:235-247 | Adding with carry over four 16-bit digits is addition modulo 2^64. |
| LengthDigits.Times8Val | thirdparty/picosha2/picosha2.h:253-261 | The digit shift is multiplication by 8 modulo 2^64. |
| LengthDigits.BitLengthBytes | thirdparty/picosha2/picosha2.h:248-268 | The eight length bytes are big-endian 8 times the length modulo 2^64. |

## Left out

- Floating-point rounding and float/double conversion: everything is over the reals, so a grid point that rounding moves to the neighbouring frame is not modelled; the NaN test of the resampler has no counterpart.
- TensorRT, CUDA and ONNX conversion: encoder, decoder and planner inference are arbitrary inputs (success or failure, any token, any sequence).
- DDS readers and writers, the VR SDK, JSON, files, threads' priorities, logging and the console: input and output are parameters; of the state reader only the checksum decision is kept.
- Real time: ticks and explicit timestamps instead; buffer freshness is an arbitrary boolean except in the resampler.
- Memory ordering below the level of atomic accesses: each locked section or atomic access is one step.
- Liveness: that the planner's inference ever succeeds is not claimed; that an iteration in which it does acknowledges every request its load saw, and what follows from that, is (Reseed.IterationAcknowledges).
- SMPL forward kinematics and the Euler extraction (src/teleop/smpl_fk.cpp): an external reference is not part of this model.
- The locomotion part of InputHandler (mode index, height, facing, nav arbitration), HoldTrigger, EventQueue and HoldSqueeze: they would only add easy members.
- The three-second start ramp (tick_init) and the motor-side command bookkeeping: easy members only.
- Constant tables (gains, standing pose and standing token, skeleton, trace columns, joint limits): parameters of the models; the standing token, the gains and the bone lengths are arbitrary where a proof does not name a condition on them.
- Startup, shutdown wiring, tools and tests.
- Playback.Player.AdvancePlayback: takes only motions of 2 to 1500 frames, which is what the planner publishes.
- Sha256.Hasher.Process: one chunk is assumed shorter than 2^64 - 65536 bytes, beyond which the lowest digit's word would wrap.
- ArmReach.SolveArm: assumes that both bones are longer than the 1e-6 m slack and that the joint indices differ, as in the two calls there are.
- ThreePoint.ExtractionInvariant: assumes that the tracked pelvis rotation is a unit quaternion; the numeric wrist references and the measured-joints reference are parameters.
- RecordControl.Commander: one start; a second start resets the mirror to idle while a collector may still be recording.
- ReseedLoops.Threads: states what a loop body does undisturbed; interference between its steps is what the runs of Reseed are about.
