/** The two match presets of the `create` command (`--home`, `--away`)
    as static data, plus the empty preset used when neither is chosen. */
module Templates {
  import opened Wrappers
  import opened Json

  /** A preset: each field is absent when the preset has no such key. */
  datatype Template = Template(
    time: Option<string>,
    duration: Option<int>,
    meetupPrior: Option<int>,
    description: Option<string>,
    headingSuffix: Option<string>,
    locationData: Option<Members>)

  /** The home venue record. Its coordinates are kept as literal text. */
  const HomeLocation: Members := [
    ("feature", JString("Rothamsted Park")),
    ("address", JString("Rothamsted Park, Harpenden")),
    ("latitude", JFloat("51.811954")),
    ("longitude", JFloat("-0.3605304")),
    ("country", JString("GB")),
    ("administrativeAreaLevel1", JString("England")),
    ("administrativeAreaLevel2", JString("Hertfordshire"))
  ]

  const HomeDescription: string :=
    "BLUE (home) kit\n\nRothamsted venue info: "
    + "https://drive.google.com/file/d/1Z21E2VEupl3gc1yIs305VgQ9TXECRK70/view?usp=sharing"

  const AwayDescription: string :=
    "Meeting/kickoff time and full details will be confirmed at least 3 days "
    + "before the match once notified by the home team."

  const AwaySuffix: string := " - TIME AND DETAILS TBC"

  /** `HOME_DEFAULTS`: 10:00 kick-off, 75 minutes, meet 30 minutes before,
      kit and venue description, the fixed home venue. */
  const Home: Template :=
    Template(Some("10:00"), Some(75), Some(30), Some(HomeDescription), None, Some(HomeLocation))

  /** `AWAY_DEFAULTS`: a 10:00 start, a 210-minute block, meet 30
      minutes before, the "details TBC" heading suffix and description;
      no venue. */
  const Away: Template :=
    Template(Some("10:00"), Some(210), Some(30), Some(AwayDescription), Some(AwaySuffix), None)

  /** `{}`: no preset. */
  const Bare: Template := Template(None, None, None, None, None, None)
}
