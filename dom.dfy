/** The one piece of DOM state the scripts write besides classes and attributes: an element's
    inline `style.display`. */
module Dom {

  /** `Unset`: no inline value, so the stylesheet decides; `Hidden` is `display: none`. */
  datatype Display = Unset | Block | Flex | Hidden
}
