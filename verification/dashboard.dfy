/** The dashboard data route: the user's plan count and the plan to resume
    (the most recently created one), with fixed placeholder figures for the
    rest. The order in which the store lists the user's dated plans, newest
    first, is an input. */
module Dashboard {
  import opened Values
  import opened Db
  import opened Web
  import Planning

  datatype DashboardData = DashboardData(
    name: string,
    planCount: nat,
    completedTopics: nat,
    lastPlanId: Option<Id>,
    xpPoints: int,
    dayStreak: int,
    level: int)

  const XpPoints := 1250
  const DayStreak := 7
  const Level := 3

  /** The user's plans that carry a `creation_date`: those the
      newest-first query can return. */
  function DatedPlans(s: Store, uid: Id): set<Id> {
    Having(s.plans, PlansOf(s, uid), "creation_date")
  }

  /** The head of a descending listing, if any, is a greatest element, and
      the listing is empty only when there is nothing to list. */
  lemma HeadOfNewest(c: Collection, newest: seq<Id>, ids: set<Id>, field: string)
    requires Enumerates(newest, ids) && Descending(c, newest, field)
    ensures newest == [] <==> ids == {}
    ensures |newest| > 0 ==>
      newest[0] in ids && forall k :: k in ids ==> ValueLe(FieldAt(c, k, field), FieldAt(c, newest[0], field))
  {
    EnumeratesSize(newest, ids);
    if |newest| > 0 {
      DescendingHeadIsGreatest(c, newest, ids, field);
    }
  }

  /** `get_dashboard_data`. `newest` is the user's dated plans listed by
      `creation_date` descending; the route takes its head. */
  function DashboardFor(session: Session, s: Store, newest: seq<Id>): (st: Step<DashboardData>)
    requires session.userId.Some? ==>
      Enumerates(newest, DatedPlans(s, session.userId.value))
      && Descending(s.plans, newest, "creation_date")
    ensures st.store == s && st.session == session
    ensures session.userId.None? ==> st.reply == Failure(401, Unauthorized)
    ensures st.reply.Success? <==> session.userId.Some?
    ensures st.reply.Success? ==>
      var uid := session.userId.value;
      var d := st.reply.payload;
      && st.reply.code == 200
      && d.name == session.name.GetOr("User")
      && d.planCount == |PlansOf(s, uid)|
      && d.completedTopics == 0
      && d.xpPoints == XpPoints && d.dayStreak == DayStreak && d.level == Level
      && (d.lastPlanId.None? <==> DatedPlans(s, uid) == {})
      && (d.lastPlanId.Some? ==>
            && d.lastPlanId.value in PlansOf(s, uid)
            && "creation_date" in s.plans[d.lastPlanId.value]
            && forall k :: k in DatedPlans(s, uid) ==>
                 ValueLe(s.plans[k]["creation_date"], s.plans[d.lastPlanId.value]["creation_date"]))
  {
    if session.userId.None? then Denied(s, session)
    else
      var uid := session.userId.value;
      var last := if |newest| > 0 then Some(newest[0]) else None;
      HeadOfNewest(s.plans, newest, DatedPlans(s, uid), "creation_date");
      Step(Success(200, DashboardData(session.name.GetOr("User"), |PlansOf(s, uid)|, 0, last,
                                      XpPoints, DayStreak, Level)), s, session)
  }

  /** A plan the user saves counts on the dashboard: the plan count grows
      by exactly one, and the new plan is dated, so the dashboard always has
      a plan to resume afterwards. */
  lemma SavedPlanCounts(session: Session, s: Store, planData: Option<Planning.PlanDraft>, now: int)
    requires session.userId.Some?
    ensures var uid := session.userId.value;
      var t := Planning.SavePlan(session, s, planData, Str(uid), now).store;
      && (planData.Some? ==> |PlansOf(t, uid)| == |PlansOf(s, uid)| + 1)
      && (planData.Some? ==> DatedPlans(t, uid) != {})
  {
    var uid := session.userId.value;
    if planData.Some? {
      var t := Planning.SavePlan(session, s, planData, Str(uid), now).store;
      var pid := FreshId(s.plans.Keys);
      WhereAfterInsert(t.plans, s.plans, pid, "userId", Str(uid));
      assert pid in DatedPlans(t, uid);
    }
  }
}
