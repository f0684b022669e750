/** The ad hierarchy tables (app/models/ad_campaign.py). */
module AdStore {
  import opened Common
  import opened Tables

  datatype Platform = Meta | Google | LinkedIn

  datatype EntityStatus = ActiveEntity | Paused | Removed | Unknown

  datatype CampaignKey = CampaignKey(channel: nat, platform: Platform, externalId: string)
  datatype GroupKey = GroupKey(campaign: nat, externalId: string)
  datatype AdKey = AdKey(group: nat, externalId: string)
  datatype MetricKey = MetricKey(ad: nat, date: int)

  /** What a sync never touches: the status, and the internal campaign an operator linked. */
  datatype CampaignMarks = CampaignMarks(status: EntityStatus, linkedCampaign: Option<nat>)

  /** Amounts are integers in millionths. */
  datatype Values = Values(
    impressions: int, reach: int, clicks: int, spend: int, conversions: int, ctr: int, cpc: int,
    currency: Option<string>)

  type Campaigns = Table<CampaignKey, CampaignMarks, string>
  type Groups = Table<GroupKey, EntityStatus, string>
  type Ads = Table<AdKey, EntityStatus, string>
  type Metrics = Table<MetricKey, (), Values>

  const NEW_CAMPAIGN := CampaignMarks(ActiveEntity, None)

  /** `pending` are the metric rows added to the session and not yet flushed: queries do not
      see them. */
  datatype Db = Db(campaigns: Campaigns, groups: Groups, ads: Ads, metrics: Metrics, pending: Metrics)

  function AllMetrics(db: Db): Metrics {
    db.metrics + db.pending
  }

  /** The unique constraints of the hierarchy, and its foreign keys. */
  ghost predicate Intact(db: Db) {
    && Unique(db.campaigns) && Unique(db.groups) && Unique(db.ads)
    && (forall i | 0 <= i < |db.groups| :: db.groups[i].key.campaign < |db.campaigns|)
    && (forall i | 0 <= i < |db.ads| :: db.ads[i].key.group < |db.groups|)
    && (forall i | 0 <= i < |AllMetrics(db)| :: AllMetrics(db)[i].key.ad < |db.ads|)
  }
}
