/** Names shared by all parts of the model. UUIDs drawn by the service are numbers of an endless supply. */
module Ids {
  type UserId = string
  type UnitId = string
  type CourseId = string
  type SkillId = string
  type RequestId = string
  type Uuid = nat
  /** An instant, or a span, in seconds. */
  type Time = int
}
