/** The home page's section anchors, as the route "/" renders them (app/src/App.tsx). */
module Home {

  /** The ids of the story sections, the two quote sections and the gallery section. */
  const SectionIds: set<string> :=
    {"our-story", "the-beginning", "the-journey", "the-promise", "gallery", "forever"}
}
