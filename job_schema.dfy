/**
  The job record and what mongoose demands of it on `save()`: the required
  trimmed strings, the bounds on title, description and images, the budget
  bounds and the validator relating the two budgets, and the optional
  urgency enum.
*/
module JobSchema {
  import opened Basics
  import opened Text

  /** The urgency enum of the schema; the controllers check against the same list. */
  const JobUrgencies: seq<string> := ["urgent", "normal", "flexible"]

  /**
    A stored job. The budgets keep what the request gave: a path left
    unset (`undefined`), an explicit `null`, or a number.
  */
  datatype JobDoc = JobDoc(
    title: string,
    description: string,
    category: string,
    images: seq<string>,
    postCode: string,
    address: string,
    budgetMin: NumField,
    budgetMax: NumField,
    urgency: Option<string>,
    preferredDate: Option<int>,
    userId: UserId,
    uniqueNumber: string)

  /**
    The `budget_max` validator, `!this.budget_min || value >= this.budget_min`,
    on the value as a number: a falsy minimum allows any maximum, otherwise
    the maximum must be at least the minimum.
  */
  predicate BudgetOrdered(budgetMin: NumField, budgetMax: real) {
    !budgetMin.Truthy() || budgetMax >= budgetMin.n
  }

  /**
    The paths that `updateJob` also writes, with their validators: required
    trimmed strings, the length bounds, the images count, the `min` of the
    minimum budget (which lets `null` through) and the urgency enum.
  */
  predicate ValidUpdatablePaths(j: JobDoc) {
    && j.title != "" && |j.title| <= 200
    && j.description != "" && |j.description| <= 2000
    && j.category != ""
    && 1 <= |j.images| <= 5
    && j.postCode != "" && j.address != ""
    && (j.budgetMin.Num? ==> j.budgetMin.n >= 0.0)
    && (j.urgency.Some? ==> j.urgency.value in JobUrgencies)
  }

  /**
    The `budget_max` validator on a loaded document. Mongoose skips a custom
    validator only for `undefined`, so it also runs on `null`, which the
    comparison reads as 0.
  */
  predicate BudgetMaxAccepted(j: JobDoc) {
    j.budgetMax != Undefined ==> BudgetOrdered(j.budgetMin, j.budgetMax.AsNumber())
  }

  /** What `save()` checks of a job record (strings as stored, after trimming). */
  predicate ValidJob(j: JobDoc) {
    && ValidUpdatablePaths(j)
    && BudgetMaxAccepted(j)
    && j.userId != ""
    && j.uniqueNumber != ""
  }

  /**
    What `this` is inside the `budget_max` validator when `findByIdAndUpdate`
    runs it (`runValidators: true`): no document is loaded, so it is either
    the query object, which has no `budget_min` member and so lets every
    maximum through, or null, and then reading `this.budget_min` throws.
    Which one depends on the mongoose release in use.
  */
  datatype UpdateThis = QueryObject | NullThis

  /**
    The update validators of `findByIdAndUpdate`, run on the paths the update
    sets. The `budget_max` validator runs whenever the update sets a maximum.
  */
  predicate UpdateValidatorsPass(j: JobDoc, ctx: UpdateThis) {
    && ValidUpdatablePaths(j)
    && (j.budgetMax != Undefined ==> ctx == QueryObject)
  }

  /**
    The budget validator in the source's own terms: a falsy minimum allows any
    maximum, a truthy minimum asks for a maximum at least as large, so 0 and
    `null` are refused under a positive minimum.
  */
  lemma BudgetOrderedMeaning(budgetMin: NumField, budgetMax: NumField)
    requires budgetMax != Undefined
    ensures !budgetMin.Truthy() ==> BudgetOrdered(budgetMin, budgetMax.AsNumber())
    ensures budgetMin.Truthy() && budgetMax.Num? ==> (BudgetOrdered(budgetMin, budgetMax.AsNumber()) <==> budgetMax.n >= budgetMin.n)
    ensures budgetMin.Truthy() && budgetMin.n > 0.0 && !budgetMax.Truthy() ==> !BudgetOrdered(budgetMin, budgetMax.AsNumber())
  {
  }

  /** Which urgencies the record accepts: none at all, or one of the three names; an empty string is refused. */
  lemma UrgencyMeaning(u: Option<string>)
    ensures (u.Some? ==> u.value in JobUrgencies) <==>
            (u.None? || u == Some("urgent") || u == Some("normal") || u == Some("flexible"))
    ensures u == Some("") ==> !(u.value in JobUrgencies)
  {
  }
}
